/** Whole-duel consequences of the rules of code-duel-server/src/Game.ts, and one client run of
    the matchmaking, registry and game classes together. */
module DuelScenarios {
  import opened Types
  import opened Bots
  import opened CodeExecution
  import opened GameRules
  import opened Games
  import opened GameRegistry
  import opened MatchQueue

  /** A player whose strategy throws on every call (or times out) does nothing on its turn. */
  lemma ThrowingStrategyIdles(vs: seq<PlayerView>, i: nat, sandbox: Sandbox, width: int, height: int)
    requires i < |vs| && forall c :: sandbox(i, vs[i].code, c) == Threw
    ensures Turn(vs, i, sandbox, width, height).players == vs
  {
    ExecutedAction(Threw);
  }

  /** A player whose strategy returns an invalid value does nothing on its turn either. */
  lemma InvalidStrategyIdles(vs: seq<PlayerView>, i: nat, sandbox: Sandbox, width: int, height: int)
    requires i < |vs|
    requires forall c :: sandbox(i, vs[i].code, c).Returned? && !IsValidAction(sandbox(i, vs[i].code, c).value)
    ensures Turn(vs, i, sandbox, width, height).players == vs
  {
    if vs[i].code != "" && Alive(vs[i].bot) {
      var c := ContextFor(vs, i, width, height);
      if c.Some? {
        ExecutedAction(sandbox(i, vs[i].code, c.value));
      }
    }
  }

  /** The duel after `k` ticks in which the first player always moves right and the second
      player has submitted no code. */
  function Walk(a: string, b: string, code: string, k: nat): Snapshot
  {
    Snapshot([PlayerView(a, code, BotState(Position(1 + k, 5), StartHealth, StartHealth, Right)),
              PlayerView(b, "", NewBot(SecondStart))],
             GridWidth, GridHeight, Running, None, k)
  }

  /** A step on duel states applied `k` times. */
  function Repeat(step: Snapshot -> Snapshot, s: Snapshot, k: nat): Snapshot
    decreases k
  {
    if k == 0 then s else Repeat(step, step(s), k - 1)
  }

  /** `tick` as a step on duel states. */
  function TickOf(sandbox: Sandbox): Snapshot -> Snapshot
  {
    s => TickStep(s, sandbox).state
  }

  /** The first player's turn in the walk: its bot steps one cell right. */
  lemma WalkFirstTurn(a: string, b: string, code: string, k: nat, sandbox: Sandbox)
    requires a != b && code != "" && k < 8
    requires forall c :: sandbox(0, code, c) == Returned(Encode(Action(Move, Right)))
    ensures Turn(Walk(a, b, code, k).players, 0, sandbox, GridWidth, GridHeight)
         == Progress(Walk(a, b, code, k + 1).players, false)
  {
    var vs := Walk(a, b, code, k).players;
    assert FirstOther(Ids(vs), a) == Some(1);
    ConstantStrategyActs(vs, 0, Action(Move, Right), sandbox, GridWidth, GridHeight);
    WalkMove(a, b, code, k);
  }

  /** Moving the first bot right advances the walk by one cell. */
  lemma WalkMove(a: string, b: string, code: string, k: nat)
    requires k < 8
    ensures ApplyAction(Walk(a, b, code, k).players, 0, Action(Move, Right), GridWidth, GridHeight)
         == Walk(a, b, code, k + 1).players
  {
    var vs := Walk(a, b, code, k).players;
    MoveInBounds(vs[0].bot, Right, GridWidth, GridHeight);
    assert Moved(vs[0].bot, Right, GridWidth, GridHeight).bot == Walk(a, b, code, k + 1).players[0].bot;
  }

  /** The turns of one tick of the walk: the first bot steps right, the second player, having
      no code, is skipped. */
  lemma WalkTurns(a: string, b: string, code: string, k: nat, sandbox: Sandbox)
    requires a != b && code != "" && k < 8
    requires forall c :: sandbox(0, code, c) == Returned(Encode(Action(Move, Right)))
    ensures Turns(Walk(a, b, code, k).players, 2, sandbox, GridWidth, GridHeight)
         == Progress(Walk(a, b, code, k + 1).players, false)
  {
    var vs, next := Walk(a, b, code, k).players, Walk(a, b, code, k + 1).players;
    WalkFirstTurn(a, b, code, k, sandbox);
    assert Turns(vs, 1, sandbox, GridWidth, GridHeight) == Progress(next, false);
    InactivePlayerSkipped(next, 1, sandbox, GridWidth, GridHeight);
  }

  /** One tick of the walk: the first bot advances one cell, nobody wins, the counter advances. */
  lemma WalkOneTick(a: string, b: string, code: string, k: nat, sandbox: Sandbox)
    requires a != b && code != "" && k < 8
    requires forall c :: sandbox(0, code, c) == Returned(Encode(Action(Move, Right)))
    ensures TickStep(Walk(a, b, code, k), sandbox) == TickResult(Walk(a, b, code, k + 1), Continued)
  {
    WalkTurns(a, b, code, k, sandbox);
    CheckWinnerOfTwo(Walk(a, b, code, k + 1).players);
  }

  /** A step that advances the walk by one cell, repeated `k` times from `done` cells, advances
      it by `k`. */
  lemma {:induction false} WalkRepeat(a: string, b: string, code: string, step: Snapshot -> Snapshot, k: nat, done: nat)
    requires forall d: nat :: done <= d < done + k ==> step(Walk(a, b, code, d)) == Walk(a, b, code, d + 1)
    ensures Repeat(step, Walk(a, b, code, done), k) == Walk(a, b, code, done + k)
    decreases k
  {
    if k > 0 {
      WalkRepeat(a, b, code, step, k - 1, done + 1);
    }
  }

  /** Walking right from (1,5), the first bot is at x = 1 + k after `k` ticks, and it stands on
      the second bot's cell (8,5) exactly after seven, not next to it: movement never checks for
      other bots. */
  lemma WalkReachesOpponentCell(a: string, b: string, code: string, sandbox: Sandbox, k: nat)
    requires a != b && code != "" && k <= 8
    requires forall c :: sandbox(0, code, c) == Returned(Encode(Action(Move, Right)))
    ensures Repeat(TickOf(sandbox), Walk(a, b, code, 0), k) == Walk(a, b, code, k)
    ensures var vs := Walk(a, b, code, k).players;
      vs[0].bot.position == Position(1 + k, 5) && (vs[0].bot.position == vs[1].bot.position <==> k == 7)
  {
    forall d: nat | 0 <= d < k ensures TickOf(sandbox)(Walk(a, b, code, d)) == Walk(a, b, code, d + 1) {
      WalkOneTick(a, b, code, d, sandbox);
    }
    WalkRepeat(a, b, code, TickOf(sandbox), k, 0);
  }

  /** From the shared cell an attack to the right aims at (9,5) and misses: the second bot keeps
      its full health and the duel goes on. */
  lemma AttackFromSharedCellMisses(a: string, b: string, code: string, sandbox: Sandbox)
    requires a != b && code != ""
    requires forall c :: sandbox(0, code, c) == Returned(Encode(Action(Attack, Right)))
    ensures var r := TickStep(Walk(a, b, code, 7), sandbox);
      r.outcome == Continued && r.state.players == Walk(a, b, code, 7).players
  {
    var vs := Walk(a, b, code, 7).players;
    DecodeEncode(Action(Attack, Right));
    assert FirstOther(Ids(vs), a) == Some(1);
    assert AttackTarget(vs, 0, Right) == None;
    var p1 := Turns(vs, 1, sandbox, GridWidth, GridHeight);
    assert p1 == Progress(vs, false);
    InactivePlayerSkipped(vs, 1, sandbox, GridWidth, GridHeight);
    CheckWinnerOfTwo(vs);
  }

  /** The killing blow ends the duel in the same tick: status finished, the attacker the winner,
      the counter not advanced, and the dead bot never acts. */
  lemma KillingBlowEndsDuel(s: Snapshot, sandbox: Sandbox)
    requires |s.players| == 2 && s.players[0].socketId != s.players[1].socketId && s.players[0].socketId != ""
    requires s.players[0].code != "" && Alive(s.players[0].bot)
    requires s.players[1].bot.position == Step(s.players[0].bot.position, Right)
    requires 0 <= s.players[1].bot.health <= AttackDamage
    requires forall c :: sandbox(0, s.players[0].code, c) == Returned(Encode(Action(Attack, Right)))
    ensures var r := TickStep(s, sandbox);
      r.outcome == GameOver(s.players[0].socketId)
      && r.state.status == Finished && r.state.winner == Some(s.players[0].socketId) && r.state.tick == s.tick
  {
    KilledBotDoesNotAct(s.players, sandbox, s.width, s.height);
    CheckWinnerOfTwo(Turns(s.players, 2, sandbox, s.width, s.height).players);
  }

  /** A new game holds its two players in arrival order with empty code on the two start cells,
      every bot well-formed and alive, and no winner; if both entries share a key it holds one. */
  lemma InitialRoster(id1: string, id2: string)
    ensures var vs := InitialViews(id1, id2);
      AllWellFormed(vs, GridWidth, GridHeight) && Distinct(Ids(vs))
      && (forall j :: 0 <= j < |vs| ==> vs[j].code == "" && Alive(vs[j].bot))
      && (id1 != id2 ==> Ids(vs) == [id1, id2] && vs[0].bot.position == FirstStart && vs[1].bot.position == SecondStart
                         && CheckWinner(vs) == None)
      && (id1 == id2 ==> Ids(vs) == [id2] && vs[0].bot.position == SecondStart)
  {
    if id1 != id2 {
      CheckWinnerOfTwo(InitialViews(id1, id2));
    }
  }

  /** Two sockets queue up and are matched, the game is registered, and one player disconnects
      during the 3-second delay before `start`: the other is declared winner and the game is
      finished, yet the delayed `start` then sets it running again, winner still recorded. */
  method DisconnectDuringStartDelay(a: MatchmakingPlayer, b: MatchmakingPlayer, gameId: string)
    returns (status: Status, winner: Option<string>)
    requires a.socketId != b.socketId && gameId != ""
    ensures status == Running && winner == Some(b.socketId)
  {
    var queue := new Matchmaking();
    var manager := new GameManager();
    var _, none := queue.AddPlayer(a);
    var position, matched := queue.AddPlayer(b);
    assert matched == Some(Match(a, b)) && queue.queue == [];
    var game := manager.CreateGame(gameId, matched.value.player1, matched.value.player2);
    assert game.View() == InitialViews(a.socketId, b.socketId);
    assert game.state.players[0].socketId == a.socketId && game.state.players[1].socketId == b.socketId;
    var notified := manager.HandleDisconnect(a.socketId);
    assert game.state.status == Finished && game.state.winner == Some(b.socketId);
    game.Start();
    status, winner := game.state.status, game.state.winner;
  }
}
