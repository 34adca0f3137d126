/** The per-duel state machine of code-duel-server/src/Game.ts: a `Game` object owns a
    `GameState` whose player records hold the in-place `Bot` objects. Timers, socket emits and
    logging are left out; `tick` is a method the caller invokes. */
module Games {
  import opened Types
  import opened Bots
  import opened CodeExecution
  import opened GameRules

  /** A player record. Its uuid `id` (never read) and its `language` (never set) are left out. */
  datatype Player = Player(socketId: string, username: string, bot: Bot, code: string, wins: int, losses: int)

  datatype Grid = Grid(width: int, height: int, obstacles: seq<Position>)

  /** The duel's state; `players` is the Map keyed by socket id, in insertion order. */
  datatype GameState = GameState(id: string, players: seq<Player>, grid: Grid,
                                 status: Status, winner: Option<string>, tick: int)

  function SocketIds(ps: seq<Player>): (ids: seq<string>)
    ensures |ids| == |ps| && forall j :: 0 <= j < |ps| ==> ids[j] == ps[j].socketId
  {
    seq(|ps|, j requires 0 <= j < |ps| => ps[j].socketId)
  }

  function BotsOf(ps: seq<Player>): set<Bot>
  {
    set j | 0 <= j < |ps| :: ps[j].bot
  }

  /** The players as the rules see them, reading each bot's current fields. */
  function ViewOf(ps: seq<Player>): (vs: seq<PlayerView>)
    reads BotsOf(ps)
    ensures |vs| == |ps|
    ensures forall j :: 0 <= j < |ps| ==> vs[j] == PlayerView(ps[j].socketId, ps[j].code, ps[j].bot.State())
  {
    seq(|ps|, j requires 0 <= j < |ps| reads BotsOf(ps) => PlayerView(ps[j].socketId, ps[j].code, ps[j].bot.State()))
  }

  /** `players.set(p.socketId, p)` on an insertion-ordered Map: an existing key keeps its place
      and gets the new record; a new key is appended. */
  function MapSet(ps: seq<Player>, p: Player): (r: seq<Player>)
    ensures Distinct(SocketIds(ps)) ==> Distinct(SocketIds(r))
    ensures p.socketId !in SocketIds(ps) ==> r == ps + [p]
    ensures p.socketId in SocketIds(ps) ==> SocketIds(r) == SocketIds(ps)
    ensures p.socketId in SocketIds(ps) && Distinct(SocketIds(ps)) ==>
      forall j :: 0 <= j < |ps| ==> r[j] == (if ps[j].socketId == p.socketId then p else ps[j])
  {
    match IndexOf(SocketIds(ps), p.socketId)
    case Some(k) => ps[k := p]
    case None => ps + [p]
  }

  /** Records whose bots are the same objects, position by position, own the same bots. */
  lemma SameBots(a: seq<Player>, b: seq<Player>)
    requires |a| == |b| && forall j :: 0 <= j < |a| ==> a[j].bot == b[j].bot
    ensures BotsOf(a) == BotsOf(b)
  {
    forall x | x in BotsOf(a) ensures x in BotsOf(b) {
      var j :| 0 <= j < |a| && a[j].bot == x;
      assert b[j].bot == x;
    }
    forall x | x in BotsOf(b) ensures x in BotsOf(a) {
      var j :| 0 <= j < |b| && b[j].bot == x;
      assert a[j].bot == x;
    }
  }

  predicate DistinctBots(ps: seq<Player>)
  {
    forall j, k :: 0 <= j < k < |ps| ==> ps[j].bot != ps[k].bot
  }

  class Game {
    const id: string
    var state: GameState

    function Bots(): set<Bot>
      reads this
    {
      BotsOf(state.players)
    }

    function View(): seq<PlayerView>
      reads this, Bots()
    {
      ViewOf(state.players)
    }

    /** The part of the state the rules read and write. */
    function Snap(): Snapshot
      reads this, Bots()
    {
      Snapshot(View(), state.grid.width, state.grid.height, state.status, state.winner, state.tick)
    }

    /** The part of the object invariant that the bots' fields cannot affect: the state carries
        the game's id, keys are unique, and each player has a bot object of its own. */
    ghost predicate Shape()
      reads this
    {
      state.id == id
      && Distinct(SocketIds(state.players))
      && DistinctBots(state.players)
    }

    /** The object invariant: the shape, and every bot well-formed. */
    ghost predicate Valid()
      reads this, Bots()
    {
      Shape() && AllWellFormed(View(), state.grid.width, state.grid.height)
    }

    /** The constructor together with `initializeGameState`. */
    constructor (id: string, player1: MatchmakingPlayer, player2: MatchmakingPlayer)
      ensures Valid() && fresh(Bots()) && this.id == id
      ensures Snap() == Snapshot(InitialViews(player1.socketId, player2.socketId), GridWidth, GridHeight, Waiting, None, 0)
      ensures state.id == id && state.grid.obstacles == []
      ensures forall j :: 0 <= j < |state.players| ==>
        state.players[j].wins == 0 && state.players[j].losses == 0
        && state.players[j].username == (if state.players[j].socketId == player2.socketId then player2.username else player1.username)
    {
      this.id := id;
      var bot1 := new Bot(FirstStart);
      var players := MapSet([], Player(player1.socketId, player1.username, bot1, "", 0, 0));
      var bot2 := new Bot(SecondStart);
      players := MapSet(players, Player(player2.socketId, player2.username, bot2, "", 0, 0));
      if player1.socketId == player2.socketId {
        assert players == [Player(player2.socketId, player2.username, bot2, "", 0, 0)];
      } else {
        assert players == [Player(player1.socketId, player1.username, bot1, "", 0, 0),
                           Player(player2.socketId, player2.username, bot2, "", 0, 0)];
      }
      state := GameState(id, players, Grid(GridWidth, GridHeight, []), Waiting, None, 0);
      new;
      assert View() == InitialViews(player1.socketId, player2.socketId);
    }

    method Start()
      modifies this
      ensures state == old(state).(status := Running)
      ensures old(Valid()) ==> Valid()
    {
      state := state.(status := Running);
    }

    /** `performAttack` by the player at position `i`. */
    method PerformAttack(i: nat, direction: Direction)
      requires Shape() && i < |state.players|
      modifies Bots()
      ensures View() == Attacked(old(View()), i, direction)
    {
      ghost var before := View();
      var ps := state.players;
      var targetPos := Step(ps[i].bot.position, direction);
      var opponent := FirstOther(SocketIds(ps), ps[i].socketId);
      assert SocketIds(ps) == Ids(before);
      if opponent.Some? && ps[opponent.value].bot.position == targetPos {
        var j := opponent.value;
        ps[j].bot.TakeDamage(AttackDamage);
        assert View() == before[j := before[j].(bot := Damaged(before[j].bot, AttackDamage))];
      }
    }

    /** `executeAction` for the player at position `i`. */
    method ExecuteAction(i: nat, action: Action)
      requires Shape() && i < |state.players|
      modifies Bots()
      ensures View() == ApplyAction(old(View()), i, action, state.grid.width, state.grid.height)
    {
      if action.action == Move {
        var _ := state.players[i].bot.Move(action.direction, state.grid.width, state.grid.height);
      } else if action.action == Attack {
        PerformAttack(i, action.direction);
      }
    }

    /** One pass of `tick`'s loop body, for the player at position `i`. */
    method RunTurn(i: nat, sandbox: Sandbox) returns (crashed: bool)
      requires Shape() && i < |state.players|
      modifies Bots()
      ensures Progress(View(), crashed) == Turn(old(View()), i, sandbox, state.grid.width, state.grid.height)
    {
      var player := state.players[i];
      ghost var before := View();
      assert before[i].code == player.code && before[i].bot == player.bot.State();
      crashed := false;
      if player.code != "" && player.bot.IsAlive() {
        // `buildGameContext`; a missing opponent makes it throw out of the tick
        var context := ContextFor(View(), i, state.grid.width, state.grid.height);
        if context.None? {
          crashed := true;
          return;
        }
        var action := Decode(Execute(sandbox(i, player.code, context.value)));
        ExecuteAction(i, action);
      }
    }

    /** The loop of `tick`: the players take their turns in Map order; a thrown error ends it. */
    method RunTurns(sandbox: Sandbox) returns (crashed: bool)
      requires Shape()
      modifies Bots()
      ensures Progress(View(), crashed) == Turns(old(View()), |state.players|, sandbox, state.grid.width, state.grid.height)
    {
      ghost var start := View();
      ghost var w, h := state.grid.width, state.grid.height;
      var n := |state.players|;
      var i := 0;
      while i < n
        invariant 0 <= i <= n == |state.players|
        invariant state == old(state)
        invariant Turns(start, i, sandbox, w, h) == Progress(View(), false)
      {
        TurnsStep(start, i, sandbox, w, h);
        crashed := RunTurn(i, sandbox);
        if crashed {
          TurnsAfterCrash(start, i + 1, n, sandbox, w, h);
          return;
        }
        i := i + 1;
      }
      crashed := false;
    }

    /** `tick`: all turns; then either `endGame` with the winner or the tick counter advances. */
    method Tick(sandbox: Sandbox) returns (outcome: TickOutcome)
      requires Valid()
      modifies this, Bots()
      ensures Valid() && Bots() == old(Bots())
      ensures TickResult(Snap(), outcome) == TickStep(old(Snap()), sandbox)
      ensures state.id == old(state.id) && state.players == old(state.players) && state.grid == old(state.grid)
    {
      var crashed := RunTurns(sandbox);
      TurnsKeepWellFormed(old(View()), |state.players|, sandbox, state.grid.width, state.grid.height);
      if crashed {
        return Crashed;
      }
      outcome := Settle();
    }

    /** The end of `tick`, after the loop: `checkWinner`, then `endGame` or the counter. */
    method Settle() returns (outcome: TickOutcome)
      requires Valid()
      modifies this
      ensures Valid()
      ensures TickResult(Snap(), outcome) == GameRules.Settle(old(Snap()))
      ensures state.id == old(state.id) && state.players == old(state.players) && state.grid == old(state.grid)
    {
      ghost var before := View();
      var winner := CheckWinner(View());
      if winner.Some? && winner.value != "" {
        EndGame(winner.value);
        outcome := GameOver(winner.value);
      } else {
        state := state.(tick := state.tick + 1);
        outcome := Continued;
      }
      assert View() == before;
    }

    method EndGame(winnerId: string)
      modifies this
      ensures state == old(state).(status := Finished, winner := Some(winnerId))
      ensures old(Valid()) ==> Valid()
    {
      state := state.(status := Finished, winner := Some(winnerId));
    }

    /** `updatePlayerCode`: only the named player's code changes; an unknown key changes nothing. */
    method UpdatePlayerCode(socketId: string, code: string)
      modifies this
      ensures var k := IndexOf(SocketIds(old(state.players)), socketId);
        if k.Some? then state == old(state).(players := old(state.players)[k.value := old(state.players)[k.value].(code := code)])
        else state == old(state)
      ensures old(Valid()) ==> Valid()
    {
      var k := IndexOf(SocketIds(state.players), socketId);
      if k.Some? {
        var player := state.players[k.value];
        state := state.(players := state.players[k.value := player.(code := code)]);
        SameBots(state.players, old(state.players));
      }
    }

    /** `handlePlayerDisconnect`: the game is finished; the first other player, if any, becomes
        the winner and is told so (`notified`), otherwise the winner stays as it was. */
    method HandlePlayerDisconnect(socketId: string) returns (notified: Option<string>)
      modifies this
      ensures notified == DisconnectWinner(SocketIds(old(state.players)), socketId)
      ensures state == old(state).(status := Finished, winner := if notified.Some? then notified else old(state.winner))
      ensures old(Valid()) ==> Valid()
    {
      state := state.(status := Finished);
      var remaining := FirstOther(SocketIds(state.players), socketId);
      notified := None;
      if remaining.Some? {
        var remainingId := state.players[remaining.value].socketId;
        state := state.(winner := Some(remainingId));
        notified := Some(remainingId);
      }
    }

    /** `getPlayers`: the player records in Map order. */
    function GetPlayers(): (r: seq<Player>)
      reads this
      ensures r == state.players
    {
      state.players
    }
  }
}
