/**
 * The static puzzle parameters (wheels-of-wonder.py, lines 11 to 45), held
 * as one immutable value that is passed to every run instead of being read
 * from module-level globals.
 *
 * Wheel 0 is the left wheel and wheel 1 the right wheel.
 */
module Settings {

  datatype Config = Config(
    sizeLeft: int,
    sizeRight: int,
    startWheel: int,
    startPosition: int,
    targetWheel: int,
    targetPosition: int,
    holdingLeft: set<int>,
    holdingRight: set<int>,
    jumpsLeftToRight: map<int, int>,
    jumpsRightToLeft: map<int, int>,
    blockedLeft: set<int>,
    blockedRight: set<int>)

  /** Every member of `xs` is a position of a ring of `size` positions. */
  predicate InRange(xs: set<int>, size: int)
  {
    forall x | x in xs :: 0 <= x < size
  }

  /** The number of positions of wheel `wheel` (0 selects the left wheel, anything else the right). */
  function SizeOf(c: Config, wheel: int): int
  {
    if wheel == 0 then c.sizeLeft else c.sizeRight
  }

  /**
   * The parameters the simulation relies on: both rings are non-empty, the
   * ball starts on a real wheel at one of its positions, the holding
   * positions lie on their wheels, and every jump lands on a position of
   * the opposite wheel.
   */
  predicate WellFormed(c: Config)
  {
    && c.sizeLeft > 0
    && c.sizeRight > 0
    && (c.startWheel == 0 || c.startWheel == 1)
    && 0 <= c.startPosition < SizeOf(c, c.startWheel)
    && InRange(c.holdingLeft, c.sizeLeft)
    && InRange(c.holdingRight, c.sizeRight)
    && InRange(c.jumpsLeftToRight.Values, c.sizeRight)
    && InRange(c.jumpsRightToLeft.Values, c.sizeLeft)
  }

  /** The settings the repository ships with. */
  const Default: Config := Config(
    sizeLeft := 6,
    sizeRight := 6,
    startWheel := 0,
    startPosition := 0,
    targetWheel := 1,
    targetPosition := 4,
    holdingLeft := {0, 2, 4},
    holdingRight := {1, 3, 5},
    jumpsLeftToRight := map[0 := 0, 3 := 3, 4 := 4, 5 := 5],
    jumpsRightToLeft := map[0 := 0, 3 := 3, 4 := 4, 5 := 5],
    blockedLeft := {0, 2},
    blockedRight := {0})

  lemma DefaultWellFormed()
    ensures WellFormed(Default)
  {
  }

  /** The console positions of a ring of `size` positions that may hold a peg. */
  function Available(size: int, blocked: set<int>): set<int>
  {
    set p | 0 <= p < size && p !in blocked
  }

  function AvailableLeft(c: Config): set<int>
  {
    Available(c.sizeLeft, c.blockedLeft)
  }

  function AvailableRight(c: Config): set<int>
  {
    Available(c.sizeRight, c.blockedRight)
  }

  /** With the shipped settings the search draws from these peg universes. */
  lemma DefaultAvailable()
    ensures AvailableLeft(Default) == {1, 3, 4, 5}
    ensures AvailableRight(Default) == {1, 2, 3, 4, 5}
  {
  }
}
