/** A bot on the duel grid (code-duel-server/src/Bot.ts): its value-level rules, and the
    class whose fields `move` and `takeDamage` overwrite in place. */
module Bots {
  import opened Types

  /** Health and maximum health of a freshly built bot. */
  const StartHealth: int := 100

  /** The observable state of one bot. */
  datatype BotState = BotState(position: Position, health: int, maxHealth: int, facing: Direction)

  function Abs(n: int): nat { if n < 0 then -n else n }

  /** Manhattan distance between two cells. */
  function Distance(p: Position, q: Position): nat { Abs(p.x - q.x) + Abs(p.y - q.y) }

  /** The neighbouring cell of `p` in direction `d` (the `switch` shared by `move` and `performAttack`). */
  function Step(p: Position, d: Direction): (q: Position)
    ensures Distance(p, q) == 1
  {
    match d
    case Up => p.(y := p.y - 1)
    case Down => p.(y := p.y + 1)
    case Left => p.(x := p.x - 1)
    case Right => p.(x := p.x + 1)
  }

  /** Up and down change only `y`, left and right only `x`, each by one; up and left decrease. */
  lemma StepDirections(p: Position)
    ensures Step(p, Up) == Position(p.x, p.y - 1) && Step(p, Down) == Position(p.x, p.y + 1)
    ensures Step(p, Left) == Position(p.x - 1, p.y) && Step(p, Right) == Position(p.x + 1, p.y)
  {
  }

  predicate InGrid(p: Position, width: int, height: int)
  {
    0 <= p.x < width && 0 <= p.y < height
  }

  /** The invariant every bot of a game keeps: health within [0, maxHealth], position on the grid. */
  predicate WellFormed(b: BotState, width: int, height: int)
  {
    0 <= b.health <= b.maxHealth && InGrid(b.position, width, height)
  }

  predicate Alive(b: BotState) { b.health > 0 }

  function NewBot(start: Position): BotState
  {
    BotState(start, StartHealth, StartHealth, Right)
  }

  datatype MoveResult = MoveResult(bot: BotState, moved: bool)

  /** What `move` does to a bot: one step if the destination is on the grid, nothing otherwise. */
  function Moved(b: BotState, d: Direction, width: int, height: int): (r: MoveResult)
    ensures r.moved ==> InGrid(r.bot.position, width, height) && r.bot.facing == d
    ensures Distance(b.position, r.bot.position) == (if r.moved then 1 else 0)
    ensures !r.moved ==> r.bot == b
    ensures r.bot.health == b.health && r.bot.maxHealth == b.maxHealth
  {
    var next := Step(b.position, d);
    if next.x < 0 || next.x >= width || next.y < 0 || next.y >= height then MoveResult(b, false)
    else MoveResult(b.(position := next, facing := d), true)
  }

  /** An in-bounds destination: the bot shifts one cell in `d`, faces `d`, and `move` reports true. */
  lemma MoveInBounds(b: BotState, d: Direction, width: int, height: int)
    requires InGrid(Step(b.position, d), width, height)
    ensures Moved(b, d, width, height) == MoveResult(b.(position := Step(b.position, d), facing := d), true)
  {
  }

  /** An off-grid destination: `move` reports false and position and facing stay as they were. */
  lemma MoveOutOfBounds(b: BotState, d: Direction, width: int, height: int)
    requires !InGrid(Step(b.position, d), width, height)
    ensures Moved(b, d, width, height) == MoveResult(b, false)
  {
  }

  /** A move never takes a well-formed bot off the grid. */
  lemma MoveKeepsWellFormed(b: BotState, d: Direction, width: int, height: int)
    requires WellFormed(b, width, height)
    ensures WellFormed(Moved(b, d, width, height).bot, width, height)
  {
  }

  /** `move` consults no other bot: two bots can step into the same cell. */
  lemma BotsMayShareCell()
    ensures var a := Moved(NewBot(Position(1, 5)), Right, 10, 10);
            var b := Moved(NewBot(Position(3, 5)), Left, 10, 10);
            a.moved && b.moved && a.bot.position == b.bot.position == Position(2, 5)
  {
    MoveInBounds(NewBot(Position(1, 5)), Right, 10, 10);
    MoveInBounds(NewBot(Position(3, 5)), Left, 10, 10);
  }

  /** What `takeDamage(amount)` does: health drops by `amount`, floored at 0; nothing else changes. */
  function Damaged(b: BotState, amount: int): (r: BotState)
    ensures r.health >= 0
    ensures b.health >= amount ==> r.health == b.health - amount
    ensures b.health < amount ==> r.health == 0
    ensures r.position == b.position && r.facing == b.facing && r.maxHealth == b.maxHealth
  {
    b.(health := if 0 > b.health - amount then 0 else b.health - amount)
  }

  /** A bot at 0 health stays at 0 under any non-negative damage, and so is never revived. */
  lemma DeadStaysDead(b: BotState, amount: int)
    requires b.health == 0 && amount >= 0
    ensures Damaged(b, amount).health == 0 && !Alive(Damaged(b, amount))
  {
  }

  /** Non-negative damage keeps a well-formed bot well-formed and never raises its health. */
  lemma DamageKeepsWellFormed(b: BotState, amount: int, width: int, height: int)
    requires WellFormed(b, width, height) && amount >= 0
    ensures WellFormed(Damaged(b, amount), width, height)
    ensures Damaged(b, amount).health <= b.health
  {
  }

  /** The in-place bot of Bot.ts. Its `id` (a fresh uuid that nothing reads) is left out. */
  class Bot {
    var position: Position
    var health: int
    var maxHealth: int
    var facing: Direction

    function State(): BotState
      reads this
    {
      BotState(position, health, maxHealth, facing)
    }

    constructor (startPosition: Position)
      ensures State() == BotState(startPosition, StartHealth, StartHealth, Right)
    {
      position := startPosition;
      health := StartHealth;
      maxHealth := StartHealth;
      facing := Right;
    }

    method Move(direction: Direction, gridWidth: int, gridHeight: int) returns (moved: bool)
      modifies this
      ensures MoveResult(State(), moved) == Moved(old(State()), direction, gridWidth, gridHeight)
    {
      var newPos := Step(position, direction);
      if newPos.x < 0 || newPos.x >= gridWidth || newPos.y < 0 || newPos.y >= gridHeight {
        return false;
      }
      position := newPos;
      facing := direction;
      return true;
    }

    method TakeDamage(amount: int)
      modifies this
      ensures State() == Damaged(old(State()), amount)
    {
      health := if 0 > health - amount then 0 else health - amount;
    }

    predicate IsAlive()
      reads this
      ensures IsAlive() <==> health > 0
    {
      Alive(State())
    }
  }
}
