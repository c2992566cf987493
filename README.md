# Wheels of Wonder in Dafny

A model of `wheels-of-wonder.py`, a brute-force solver for a mechanical
puzzle. A crystal ball sits on one of two rotating wheels. Each wheel has
a rotating console beside it that may hold pegs. The ball jumps to the other
wheel when the console has a peg under the ball and the jump table has an
entry for the ball's position. Each jump uses up that peg. A placement of
pegs solves the puzzle when a jump drops the ball through the target
position with no peg left on either console. The program tries every
placement drawn from the non-blocked console positions and reports the ones
that solve.

The project has seven modules:

- `Rings` (rings.dfy): the one-step advance modulo the size that both
  `Wheel.rotate` and `Console.increment_position` perform, the holding test
  of `Wheel.is_holding_position`, and the modular arithmetic behind them.
- `Settings` (settings.dfy): the static settings (lines 11-45) as an
  immutable `Config` value, its well-formedness predicate `WellFormed`, the
  shipped `Default`, and the available peg universes.
- `Sets` (sets.dfy): Python's `max` over a set, and subset sizes.
- `Machine` (machine.dfy): the state of one run as a value, and `try_jump`,
  `invalid_state`, `move` and `simulate` as functions on it (`JumpStep`,
  `Invalid`, `MoveStep`, `Execute`/`Solves`). `Execute` terminates under
  the measure (pegs left, then the distance of the current console to the
  end of its ring). It carries the lemmas about whole runs.
- `Mechanism` (mechanism.dfy): the classes `Wheel`, `Console` and `Puzzle`.
  Their methods update fields and peg sets in place. Each method is proved
  to change the puzzle's state exactly as the matching `Machine` function
  says. `Puzzle.Simulate` is the `while True` loop of `simulate`. `IsSolution`
  builds a fresh puzzle and runs it.
- `Search` (search.dfy): `subsets` as the set comprehension `Combinations`,
  and `main`'s four nested loops as `FindSolutions`. `FindSolutions` returns
  the set of solving placements. It also returns, as ghost values, the set
  of placements it tried and the number of runs it made. These show that
  every candidate is tried, nothing else is, and none is tried twice.
- `DefaultRun` (defaults.dfy): a regression example. With the shipped
  settings, pegs `{3, 4}` on the left and `{4}` on the right solve the
  puzzle. The run is written out cycle by cycle.

`try_jump`'s return codes 0, 1 and -1 are the `Outcome` values `Proceed`,
`AtTarget` and `Fell`. `Execute` also records which `return` of `simulate`
ended the run: `Reached`, `Dropped` or `Stuck`.

Three behaviours of the code that are easy to misread:

- The inner `while True` of `simulate` (lines 127-133) always leaves after
  its first `try_jump`: every path through its body ends in `break` or
  `return`. So a cycle holds at most one jump, not a chain of jumps.
- A run with no pegs at all is never solved, even when the ball starts on
  the target. `try_jump` (lines 92-107) returns 1 only after a jump. With
  no peg it returns 0, and `invalid_state` (lines 113-115) then ends the
  run (`Machine.NoPegsNoSolution`).
- A move does not keep the ball's holding status in general. `move` (lines 118-122) shifts
  the ball by -1 and turns the wheel by +1, so the raw index the ball faces
  moves by -2 (`Machine.MoveShiftsHolding`). The status survives a move for
  the shipped even/odd holding marks (`Machine.DefaultMoveKeepsHolding`).
  It can change otherwise (`Machine.MoveCanChangeHolding`).

## Model

| member | source | states |
|---|---|---|
| `Rings.Advance` | wheels-of-wonder.py:54-56 | one step stays in `[0, size)`, and from a value in range it is `value + 1`, wrapping from `size - 1` to 0 |
| `Rings.AdvanceTimesWraps` | wheels-of-wonder.py:69-71 | `k <= size` advances from a value in range move it `k` places on, wrapping at most once |
| `Rings.AdvanceCycle` | wheels-of-wonder.py:54-56 | `size` rotations (or console increments) restore the starting value, and no smaller positive number of them does |
| `Rings.HoldingByOffset` | wheels-of-wonder.py:58-60 | the holding test depends only on `(position - rotation) mod size` |
| `Rings.HoldingAfterRotate` | wheels-of-wonder.py:54-60 | after one rotate, `p` is a holding position exactly when `(p - 1) mod size` was one before |
| `Rings.RawIndexAfterMove` | wheels-of-wonder.py:118-122 | rotate plus the ball's shift by `size - 1` moves the raw index the ball faces back by two |
| `Settings.Default` | wheels-of-wonder.py:11-45 | definition: the shipped constants; `Settings.DefaultWellFormed` proves them well formed and `DefaultRun.DefaultSolution` exhibits a solution for them |
| `Settings.DefaultWellFormed` | wheels-of-wonder.py:11-32 | the shipped settings are well formed: positive sizes, start on a wheel, holding marks and jump targets on their wheels |
| `Settings.Available` | wheels-of-wonder.py:44-45 | definition of `set(range(size)) - blocked`; the shipped universes are pinned by `Settings.DefaultAvailable` and the range fact is `Search.CandidateInRange` |
| `Settings.AvailableLeft` | wheels-of-wonder.py:44 | definition: `Available` of the left size and blocked set; its shipped value is stated by `Settings.DefaultAvailable` |
| `Settings.AvailableRight` | wheels-of-wonder.py:45 | definition: `Available` of the right size and blocked set; its shipped value is stated by `Settings.DefaultAvailable` |
| `Settings.DefaultAvailable` | wheels-of-wonder.py:41-45 | with the shipped settings the universes are `{1, 3, 4, 5}` and `{1, 2, 3, 4, 5}` |
| `Sets.Max` | wheels-of-wonder.py:114 | `max` of a non-empty peg set is a member and no member exceeds it |
| `Machine.Initial` | wheels-of-wonder.py:145-149 | a fresh run (rotations 0, console positions 0, ball at the start, given pegs) satisfies the run invariant |
| `Machine.JumpStep` | wheels-of-wonder.py:92-107 | no peg under the ball: nothing changes and the run proceeds. A peg but no jump entry: nothing changes and the run fails. A jump removes exactly the peg at the current console's position from the console that was current before the flip, sets the ball to the jump target, flips the wheel, leaves rotations, console positions and the other console alone, proceeds exactly when the ball lands held, and reports the target exactly for a non-held landing on the target. Peg sets only shrink. |
| `Machine.MoveStep` | wheels-of-wonder.py:118-123 | a move keeps the invariant, moves the ball back one place with wrap-around, advances the current wheel's rotation and the current console's position, and leaves the ball's wheel, the other wheel and console, and all pegs unchanged |
| `Machine.Invalid` | wheels-of-wonder.py:109-116 | definition of `invalid_state` on the state value; its properties are proved in `Machine.MoveProgress`, `Machine.EmptyConsoleStops` and `Machine.NoPegsNoSolution`, and `Mechanism.Puzzle.InvalidState` is tied to it |
| `Machine.MoveProgress` | wheels-of-wonder.py:109-116 | every cycle that reaches `move` either took a peg or advances the current console without wrapping (`max(pegs)` lies ahead of it): the termination measure of `simulate` |
| `Machine.Execute` | wheels-of-wonder.py:125-136 | definition of the run of `simulate` (which `return` ended it, and the final state), terminating under the measure of `Machine.MoveProgress`; its properties are proved in `Machine.ExecuteFacts`, `Machine.SolvesMeans`, `Machine.NoPegsNoSolution` and `Machine.EmptyConsoleStops`, and `Mechanism.Puzzle.Simulate` is tied to it |
| `Machine.Solves` | wheels-of-wonder.py:129-130 | definition of `simulate`'s verdict; its meaning is proved in `Machine.SolvesMeans` |
| `Machine.ExecuteFacts` | wheels-of-wonder.py:125-136 | a run keeps the invariant and never adds a peg. A run that ends on the target has taken at least one peg and left the ball on the target wheel and position at a non-holding place. |
| `Machine.SolvesMeans` | wheels-of-wonder.py:129-130 | `simulate` returns true exactly when the run ended by a jump onto the (non-holding) target with both peg sets empty, so reaching the target with a peg left returns false |
| `Machine.NoPegsNoSolution` | wheels-of-wonder.py:106-116 | with no pegs the run ends at the first `invalid_state` and is never solved, even when the ball starts on the target |
| `Machine.EmptyConsoleStops` | wheels-of-wonder.py:92-116 | when a cycle's jump attempt proceeds and leaves the ball beside an empty console (already current, or reached by a held jump), the run ends at that cycle's `invalid_state` |
| `Machine.MoveShiftsHolding` | wheels-of-wonder.py:118-122 | after a move the ball is held exactly when the raw index two places back is a holding mark |
| `Machine.DefaultMoveKeepsHolding` | wheels-of-wonder.py:23-24 | with the shipped holding marks a move never changes whether the ball is held |
| `Machine.MoveCanChangeHolding` | wheels-of-wonder.py:58-60 | some well-formed setting has a move that changes the ball's holding status |
| `Mechanism.Wheel.constructor` | wheels-of-wonder.py:49-52 | a new wheel keeps its size and holding marks, with rotation 0 |
| `Mechanism.Wheel.Rotate` | wheels-of-wonder.py:54-56 | `rotate` sets the rotation to `Advance` of the old one and keeps it in range |
| `Mechanism.Wheel.IsHoldingPosition` | wheels-of-wonder.py:58-60 | `is_holding_position(p)` holds exactly when `(p - rotation) mod size` is a holding mark |
| `Mechanism.Console.constructor` | wheels-of-wonder.py:64-67 | a new console holds the given pegs, at position 0 |
| `Mechanism.Console.IncrementPosition` | wheels-of-wonder.py:69-71 | `increment_position` sets the position to `Advance` of the old one and touches nothing else |
| `Mechanism.Puzzle.constructor` | wheels-of-wonder.py:75-81 | a new puzzle owns the four parts given and puts the ball at the start wheel and position |
| `Mechanism.Puzzle.CurrentWheel` | wheels-of-wonder.py:83-84 | definition: the wheel the ball is on; `Mechanism.Puzzle.Move` is proved to turn exactly this wheel |
| `Mechanism.Puzzle.CurrentConsole` | wheels-of-wonder.py:86-87 | definition: the console beside the ball's wheel; `Mechanism.Puzzle.TryJump` and `Mechanism.Puzzle.Move` are proved to change only this console |
| `Mechanism.Puzzle.GetJumps` | wheels-of-wonder.py:89-90 | definition: the jump table of the ball's wheel; `Mechanism.Puzzle.TryJump` is proved to follow it as `Machine.JumpStep` does |
| `Mechanism.Puzzle.TryJump` | wheels-of-wonder.py:92-107 | the method modifies only the puzzle and the current console, and (code, new state) equals `JumpStep` of the old state |
| `Mechanism.Puzzle.InvalidState` | wheels-of-wonder.py:109-116 | `invalid_state` is `Machine.Invalid` of the puzzle's state |
| `Mechanism.Puzzle.Move` | wheels-of-wonder.py:118-123 | the method modifies only the puzzle, the current wheel and the current console, and the new state equals `MoveStep` of the old state |
| `Mechanism.Puzzle.Simulate` | wheels-of-wonder.py:125-136 | the loop terminates. The verdict is `Solves` of the starting state, the final state is `Execute`'s, and neither peg set gains a peg. |
| `Mechanism.IsSolution` | wheels-of-wonder.py:144-149 | the verdict of fresh parts is `Solves` of the fresh state over the given pegs |
| `Mechanism.IsSolutionTwice` | wheels-of-wonder.py:144-149 | two independently built puzzles over the same pegs give the same verdict |
| `Search.Combinations` | wheels-of-wonder.py:139-141 | definition of `subsets(s, n)` as the set of `n`-element subsets of `s`; its properties are proved in `Search.SubsetIsCombination` and used by `Search.FindSolutions` |
| `Search.SubsetIsCombination` | wheels-of-wonder.py:139-141 | every subset of `s` is among `subsets(s, n)` for exactly one `n`, its size, and that size is at most `len(s)` |
| `Search.CandidateInRange` | wheels-of-wonder.py:44-45 | every candidate placement, drawn from `set(range(size)) - blocked`, lies on the consoles' rings |
| `Search.FindSolutions` | wheels-of-wonder.py:152-158 | the loops try every pair of subsets of the two available universes and nothing else, make exactly as many runs as there are such pairs (so none is tried twice), and report exactly the pairs whose fresh run solves |
| `DefaultRun.DefaultSolution` | wheels-of-wonder.py:152-158 | with the shipped settings, pegs `{3, 4}` left and `{4}` right are among the reported solutions |

## Left out

- `print(list(left), list(right))` and the `__main__` guard (lines 158 and 161-162): output plumbing. `FindSolutions` returns the set of solutions instead.
- `itertools.combinations` (lines 140-141): replaced by the set comprehension `Combinations`. The order in which the loops visit combinations is not modelled, since each loop picks from the remaining set in no particular order.
- Malformed settings (sizes of 0, a start wheel other than 0 or 1, a start position, holding marks, jump targets or pegs off the ring): `WellFormed` and the range requirements on pegs are preconditions. Python's behaviour on such input (a `ZeroDivisionError`, a wheel number outside 0/1 that acts as the right wheel, an off-ring start position that lines 59-60 and 121-122 reduce modulo the size) is not modelled.
- `Mechanism.Puzzle.constructor`: requires the parts to match the settings (sizes, holding marks, two distinct wheels and consoles). `Puzzle.__init__` accepts any objects, but its only caller, `is_solution`, always passes matching fresh parts.
- `DefaultRun.DefaultSolution`: shows that one placement solves the shipped puzzle. It does not show that this is the only solution. The full solution set over the 2^4 x 2^5 candidates is not evaluated.
- The copies `left.copy()` and `right.copy()` (line 157): Dafny sets are values, so no run can change the caller's sets and no copy is needed.
