/** The rules of one duel (code-duel-server/src/Game.ts) stated on values: what a turn, a
    whole tick, the winner test and the disconnect rule do to the players' bots. The class
    `Games.Game` performs them in place and is proved to agree with these functions. */
module GameRules {
  import opened Types
  import opened Bots
  import opened CodeExecution

  const GridWidth: int := 10
  const GridHeight: int := 10
  /** Damage dealt by one successful attack. */
  const AttackDamage: int := 10
  /** Start cells of the first and second bot. */
  const FirstStart: Position := Position(1, 5)
  const SecondStart: Position := Position(8, 5)

  /** One player as the rules see it: its key (the socket id), its current code, its bot. */
  datatype PlayerView = PlayerView(socketId: string, code: string, bot: BotState)

  /** The strategy sandbox as seen by the game: what `vm.run` yields for the script built from
      a player's code and context, on the turn with the given position in the player order. */
  type Sandbox = (nat, string, GameContext) -> RunOutcome

  function Ids(vs: seq<PlayerView>): (ids: seq<string>)
    ensures |ids| == |vs| && forall j :: 0 <= j < |vs| ==> ids[j] == vs[j].socketId
  {
    seq(|vs|, j requires 0 <= j < |vs| => vs[j].socketId)
  }

  /** No key occurs twice, as in a JavaScript Map. */
  predicate Distinct(ids: seq<string>)
  {
    forall j, k :: 0 <= j < k < |ids| ==> ids[j] != ids[k]
  }

  /** `find(p => p.socketId !== id)` over the values in insertion order: the first entry whose key
      is not `id`, if there is one. */
  function FirstOther(ids: seq<string>, id: string): (r: Option<nat>)
    ensures r.Some? ==> r.value < |ids| && ids[r.value] != id
    ensures r.Some? ==> forall k :: 0 <= k < r.value ==> ids[k] == id
    ensures r.None? ==> forall k :: 0 <= k < |ids| ==> ids[k] == id
  {
    if ids == [] then None
    else if ids[0] != id then Some(0)
    else match FirstOther(ids[1..], id)
      case None => None
      case Some(k) => Some(k + 1)
  }

  /** `Map.get(id)`: the position of the entry with key `id`, if there is one. */
  function IndexOf(ids: seq<string>, id: string): (r: Option<nat>)
    ensures r.Some? ==> r.value < |ids| && ids[r.value] == id
    ensures r.Some? ==> forall k :: 0 <= k < r.value ==> ids[k] != id
    ensures r.None? ==> forall k :: 0 <= k < |ids| ==> ids[k] != id
  {
    if ids == [] then None
    else if ids[0] == id then Some(0)
    else match IndexOf(ids[1..], id)
      case None => None
      case Some(k) => Some(k + 1)
  }

  /** Two rosters list the same keys with the same code; only bots may differ. */
  predicate SameRoster(a: seq<PlayerView>, b: seq<PlayerView>)
  {
    |a| == |b| && forall j :: 0 <= j < |a| ==> a[j].socketId == b[j].socketId && a[j].code == b[j].code
  }

  predicate AllWellFormed(vs: seq<PlayerView>, width: int, height: int)
  {
    forall j :: 0 <= j < |vs| ==> WellFormed(vs[j].bot, width, height)
  }

  /** `buildGameContext` for the player at position `i`: copies of its own bot and of the first
      other player's bot, and the grid size. With no other player, dereferencing the missing
      opponent throws, which is `None` here. */
  function ContextFor(vs: seq<PlayerView>, i: nat, width: int, height: int): (r: Option<GameContext>)
    requires i < |vs|
    ensures r.None? <==> forall k :: 0 <= k < |vs| ==> vs[k].socketId == vs[i].socketId
    ensures r.Some? ==> r.value.myBot == MyBotInfo(vs[i].bot.position, vs[i].bot.health, vs[i].bot.facing)
    ensures r.Some? ==> r.value.grid == GridInfo(width, height)
  {
    match FirstOther(Ids(vs), vs[i].socketId)
    case None => None
    case Some(j) =>
      Some(GameContext(MyBotInfo(vs[i].bot.position, vs[i].bot.health, vs[i].bot.facing),
                       OpponentInfo(vs[j].bot.position, vs[j].bot.health),
                       GridInfo(width, height)))
  }

  /** The opponent in a context is the first player, in insertion order, whose key differs. */
  lemma ContextOpponent(vs: seq<PlayerView>, i: nat, width: int, height: int)
    requires i < |vs| && ContextFor(vs, i, width, height).Some?
    ensures exists j :: (0 <= j < |vs| && vs[j].socketId != vs[i].socketId
      && (forall k :: 0 <= k < j ==> vs[k].socketId == vs[i].socketId)
      && ContextFor(vs, i, width, height).value.opponent == OpponentInfo(vs[j].bot.position, vs[j].bot.health))
  {
    var j := FirstOther(Ids(vs), vs[i].socketId).value;
    assert vs[j].socketId != vs[i].socketId;
  }

  /** The player an attack from position `i` in direction `d` hits: the first player with a
      different key, provided its bot stands on the adjacent cell in `d`. */
  function AttackTarget(vs: seq<PlayerView>, i: nat, d: Direction): (r: Option<nat>)
    requires i < |vs|
    ensures r.Some? ==> r.value < |vs| && r.value != i && vs[r.value].socketId != vs[i].socketId
    ensures r.Some? ==> vs[r.value].bot.position == Step(vs[i].bot.position, d)
    ensures r.Some? ==> Some(r.value) == FirstOther(Ids(vs), vs[i].socketId)
    ensures FirstOther(Ids(vs), vs[i].socketId).Some? ==>
      (r.Some? <==> vs[FirstOther(Ids(vs), vs[i].socketId).value].bot.position == Step(vs[i].bot.position, d))
  {
    match FirstOther(Ids(vs), vs[i].socketId)
    case None => None
    case Some(j) => if vs[j].bot.position == Step(vs[i].bot.position, d) then Some(j) else None
  }

  /** `performAttack`: the target, if any, takes `AttackDamage`; every other bot, the attacker's
      included, is unchanged. */
  function Attacked(vs: seq<PlayerView>, i: nat, d: Direction): (r: seq<PlayerView>)
    requires i < |vs|
    ensures |r| == |vs| && r[i] == vs[i]
  {
    match AttackTarget(vs, i, d)
    case None => vs
    case Some(j) => vs[j := vs[j].(bot := Damaged(vs[j].bot, AttackDamage))]
  }

  /** The full effect of `performAttack`: keys and codes stay, the attacker and every
      non-target are unchanged, and the target's bot takes exactly `AttackDamage`. */
  lemma AttackedEffect(vs: seq<PlayerView>, i: nat, d: Direction)
    requires i < |vs|
    ensures var r := Attacked(vs, i, d);
      SameRoster(vs, r) && r[i] == vs[i]
      && (forall k :: 0 <= k < |vs| && Some(k) != AttackTarget(vs, i, d) ==> r[k] == vs[k])
      && (forall k :: 0 <= k < |vs| && Some(k) == AttackTarget(vs, i, d) ==>
            r[k] == vs[k].(bot := Damaged(vs[k].bot, AttackDamage)))
  {
  }

  /** In a duel of two, an attack on the cell where the opponent stands takes a full-health bot
      from 100 to 90 health and changes nothing else. */
  lemma AttackOnFullHealthOpponent(vs: seq<PlayerView>, d: Direction)
    requires |vs| == 2 && vs[0].socketId != vs[1].socketId
    requires vs[1].bot.position == Step(vs[0].bot.position, d) && vs[1].bot.health == StartHealth
    ensures Attacked(vs, 0, d) == [vs[0], vs[1].(bot := vs[1].bot.(health := 90))]
  {
    assert FirstOther(Ids(vs), vs[0].socketId) == Some(1);
    AttackedEffect(vs, 0, d);
  }

  /** `executeAction` for the player at position `i`. */
  function ApplyAction(vs: seq<PlayerView>, i: nat, a: Action, width: int, height: int): (r: seq<PlayerView>)
    requires i < |vs|
    ensures |r| == |vs|
  {
    match a.action
    case Move => vs[i := vs[i].(bot := Moved(vs[i].bot, a.direction, width, height).bot)]
    case Attack => Attacked(vs, i, a.direction)
    case NoAction => vs
  }

  /** A move changes only the mover's bot, an attack only its target's, and 'none' nothing. */
  lemma ApplyActionEffect(vs: seq<PlayerView>, i: nat, a: Action, width: int, height: int)
    requires i < |vs|
    ensures var r := ApplyAction(vs, i, a, width, height);
      SameRoster(vs, r)
      && match a.action
         case Move => r[i] == vs[i].(bot := Moved(vs[i].bot, a.direction, width, height).bot)
           && forall k :: 0 <= k < |vs| && k != i ==> r[k] == vs[k]
         case Attack => r == Attacked(vs, i, a.direction) && r[i] == vs[i]
           && forall k :: 0 <= k < |vs| && Some(k) != AttackTarget(vs, i, a.direction) ==> r[k] == vs[k]
         case NoAction => r == vs
  {
    AttackedEffect(vs, i, a.direction);
  }

  /** The progress of a tick's loop: the players so far, and whether the loop was aborted. */
  datatype Progress = Progress(players: seq<PlayerView>, crashed: bool)

  /** The loop body of `tick` for the player at position `i`: it acts only if its code is
      non-empty and its bot is alive right now. */
  function Turn(vs: seq<PlayerView>, i: nat, sandbox: Sandbox, width: int, height: int): (r: Progress)
    requires i < |vs|
    ensures |r.players| == |vs|
    ensures r.crashed ==> r.players == vs
  {
    if vs[i].code != "" && Alive(vs[i].bot) then
      match ContextFor(vs, i, width, height)
      case None => Progress(vs, true)
      case Some(context) =>
        var action := Decode(Execute(sandbox(i, vs[i].code, context)));
        Progress(ApplyAction(vs, i, action, width, height), false)
    else Progress(vs, false)
  }

  /** A player with code, a living bot and an opponent, whose strategy answers the context built
      for it with a valid value, performs the action that value names on its turn. */
  lemma StrategyActs(vs: seq<PlayerView>, i: nat, v: JsValue, sandbox: Sandbox, width: int, height: int)
    requires i < |vs| && vs[i].code != "" && Alive(vs[i].bot) && ContextFor(vs, i, width, height).Some?
    requires sandbox(i, vs[i].code, ContextFor(vs, i, width, height).value) == Returned(v) && IsValidAction(v)
    ensures Turn(vs, i, sandbox, width, height) == Progress(ApplyAction(vs, i, Decode(v), width, height), false)
  {
    ExecutedAction(Returned(v));
  }

  /** A strategy that answers action `a` to every context performs exactly `a` on its turn, as
      long as its player has code, a living bot and an opponent. */
  lemma ConstantStrategyActs(vs: seq<PlayerView>, i: nat, a: Action, sandbox: Sandbox, width: int, height: int)
    requires i < |vs| && vs[i].code != "" && Alive(vs[i].bot) && ContextFor(vs, i, width, height).Some?
    requires forall c :: sandbox(i, vs[i].code, c) == Returned(Encode(a))
    ensures Turn(vs, i, sandbox, width, height) == Progress(ApplyAction(vs, i, a, width, height), false)
  {
    DecodeEncode(a);
    StrategyActs(vs, i, Encode(a), sandbox, width, height);
  }

  /** The first `k` turns of a tick, in the players' insertion order; each turn sees the bots as
      the earlier turns of the same tick left them. */
  function Turns(vs: seq<PlayerView>, k: nat, sandbox: Sandbox, width: int, height: int): (r: Progress)
    requires k <= |vs|
    ensures |r.players| == |vs|
    decreases k
  {
    if k == 0 then Progress(vs, false)
    else
      var p := Turns(vs, k - 1, sandbox, width, height);
      if p.crashed then p else Turn(p.players, k - 1, sandbox, width, height)
  }

  /** A turn keeps every key and every code in place. */
  lemma TurnKeepsRoster(vs: seq<PlayerView>, i: nat, sandbox: Sandbox, width: int, height: int)
    requires i < |vs|
    ensures SameRoster(vs, Turn(vs, i, sandbox, width, height).players)
  {
    if vs[i].code != "" && Alive(vs[i].bot) {
      var c := ContextFor(vs, i, width, height);
      if c.Some? {
        ApplyActionEffect(vs, i, Decode(Execute(sandbox(i, vs[i].code, c.value))), width, height);
      }
    }
  }

  /** The loop keeps every key and every code in place; only bots change. */
  lemma {:induction false} TurnsKeepRoster(vs: seq<PlayerView>, k: nat, sandbox: Sandbox, width: int, height: int)
    requires k <= |vs|
    ensures SameRoster(vs, Turns(vs, k, sandbox, width, height).players)
    decreases k
  {
    if k > 0 {
      TurnsKeepRoster(vs, k - 1, sandbox, width, height);
      var p := Turns(vs, k - 1, sandbox, width, height);
      if p.crashed {
        TurnsAfterCrash(vs, k - 1, k, sandbox, width, height);
      } else {
        TurnsStep(vs, k - 1, sandbox, width, height);
        TurnKeepsRosterOf(vs, p.players, k - 1, sandbox, width, height);
      }
    }
  }

  /** A turn on records with the roster of `base` leaves records with that roster. */
  lemma TurnKeepsRosterOf(base: seq<PlayerView>, vs: seq<PlayerView>, i: nat, sandbox: Sandbox, width: int, height: int)
    requires i < |vs| && SameRoster(base, vs)
    ensures SameRoster(base, Turn(vs, i, sandbox, width, height).players)
  {
    TurnKeepsRoster(vs, i, sandbox, width, height);
    SameRosterTransitive(base, vs, Turn(vs, i, sandbox, width, height).players);
  }

  lemma SameRosterTransitive(a: seq<PlayerView>, b: seq<PlayerView>, c: seq<PlayerView>)
    requires SameRoster(a, b) && SameRoster(b, c)
    ensures SameRoster(a, c)
  {
  }

  /** One more turn of the loop, when the loop has not aborted. */
  lemma TurnsStep(vs: seq<PlayerView>, k: nat, sandbox: Sandbox, width: int, height: int)
    requires k < |vs| && !Turns(vs, k, sandbox, width, height).crashed
    ensures Turns(vs, k + 1, sandbox, width, height) == Turn(Turns(vs, k, sandbox, width, height).players, k, sandbox, width, height)
  {
  }

  /** Once a turn has aborted the loop, the later turns change nothing. */
  lemma {:induction false} TurnsAfterCrash(vs: seq<PlayerView>, k: nat, n: nat, sandbox: Sandbox, width: int, height: int)
    requires k <= n <= |vs| && Turns(vs, k, sandbox, width, height).crashed
    ensures Turns(vs, n, sandbox, width, height) == Turns(vs, k, sandbox, width, height)
    decreases n
  {
    if n > k {
      TurnsAfterCrash(vs, k, n - 1, sandbox, width, height);
    }
  }

  /** Positions of the players whose bots are alive, from `start` on, in order. */
  function LivingFrom(vs: seq<PlayerView>, start: nat): (r: seq<nat>)
    ensures forall x :: x in r <==> start <= x < |vs| && Alive(vs[x].bot)
    ensures forall a :: 0 <= a < |r| ==> start <= r[a] < |vs|
    ensures forall a, b :: 0 <= a < b < |r| ==> r[a] < r[b]
    decreases |vs| - start
  {
    if start >= |vs| then []
    else (if Alive(vs[start].bot) then [start] else []) + LivingFrom(vs, start + 1)
  }

  /** `checkWinner`: the key of the only living player, if exactly one bot is alive. */
  function CheckWinner(vs: seq<PlayerView>): (r: Option<string>)
    ensures r.Some? ==> r.value in Ids(vs)
  {
    var living := LivingFrom(vs, 0);
    if |living| == 1 then Some(vs[living[0]].socketId) else None
  }

  /** The bot at position `j` is alive and every other bot is dead. */
  predicate SoleSurvivor(vs: seq<PlayerView>, j: int)
  {
    0 <= j < |vs| && Alive(vs[j].bot) && forall k :: 0 <= k < |vs| && k != j ==> !Alive(vs[k].bot)
  }

  /** A strictly increasing sequence holding `j` and nothing else is `[j]`. */
  lemma OnlyElement(s: seq<nat>, j: nat)
    requires j in s && (forall x :: x in s ==> x == j)
    requires forall a, b :: 0 <= a < b < |s| ==> s[a] < s[b]
    ensures s == [j]
  {
    assert s[0] in s && s[|s| - 1] in s;
    assert s[0] == s[|s| - 1];
    assert |s| == 1;
  }

  /** `checkWinner` names a player exactly when that player's bot is the only one alive, and
      then it names that player. */
  lemma CheckWinnerSoleSurvivor(vs: seq<PlayerView>)
    ensures CheckWinner(vs).Some? <==> exists j :: SoleSurvivor(vs, j)
    ensures forall j :: SoleSurvivor(vs, j) ==> CheckWinner(vs) == Some(vs[j].socketId)
  {
    var living := LivingFrom(vs, 0);
    forall j | SoleSurvivor(vs, j) ensures living == [j] {
      assert j in living;
      forall x | x in living ensures x == j {
        assert Alive(vs[x].bot);
      }
      OnlyElement(living, j);
    }
    if |living| == 1 {
      var j := living[0];
      assert j in living;
      forall k | 0 <= k < |vs| && k != j ensures !Alive(vs[k].bot) {
        assert Alive(vs[k].bot) ==> k in living;
      }
      assert SoleSurvivor(vs, j);
    }
  }

  /** With two players, a winner is declared iff exactly one of the two bots is alive; with
      both alive or both dead there is none. */
  lemma CheckWinnerOfTwo(vs: seq<PlayerView>)
    requires |vs| == 2
    ensures Alive(vs[0].bot) && !Alive(vs[1].bot) ==> CheckWinner(vs) == Some(vs[0].socketId)
    ensures !Alive(vs[0].bot) && Alive(vs[1].bot) ==> CheckWinner(vs) == Some(vs[1].socketId)
    ensures Alive(vs[0].bot) == Alive(vs[1].bot) ==> CheckWinner(vs) == None
  {
    CheckWinnerSoleSurvivor(vs);
    assert Alive(vs[0].bot) && !Alive(vs[1].bot) ==> SoleSurvivor(vs, 0);
    assert !Alive(vs[0].bot) && Alive(vs[1].bot) ==> SoleSurvivor(vs, 1);
    assert Alive(vs[0].bot) == Alive(vs[1].bot) ==> forall j :: !SoleSurvivor(vs, j);
  }

  /** The outcome of one tick: the game goes on, ends with a winner, or the loop threw. */
  datatype TickOutcome = Continued | GameOver(winner: string) | Crashed

  /** The duel state the tick reads and writes. */
  datatype Snapshot = Snapshot(players: seq<PlayerView>, width: int, height: int,
                               status: Status, winner: Option<string>, tick: int)

  datatype TickResult = TickResult(state: Snapshot, outcome: TickOutcome)

  /** `tick`: all turns in order; then, when `checkWinner` names a (non-empty) key, `endGame`,
      otherwise the tick counter advances. An aborted loop skips both. */
  function TickStep(s: Snapshot, sandbox: Sandbox): (r: TickResult)
    ensures r.state.width == s.width && r.state.height == s.height && |r.state.players| == |s.players|
    ensures r.outcome.Crashed? ==> r.state.status == s.status && r.state.winner == s.winner && r.state.tick == s.tick
  {
    var p := Turns(s.players, |s.players|, sandbox, s.width, s.height);
    if p.crashed then TickResult(s.(players := p.players), Crashed)
    else Settle(s.(players := p.players))
  }

  /** The end of `tick`, after the turns: `endGame` when `checkWinner` names a (non-empty) key,
      otherwise the counter advances. The bots are not touched. */
  function Settle(s: Snapshot): (r: TickResult)
    ensures r.state.players == s.players && r.state.width == s.width && r.state.height == s.height
    ensures r.outcome.GameOver? <==> CheckWinner(s.players).Some? && CheckWinner(s.players).value != ""
    ensures r.outcome.GameOver? ==>
      r.state == s.(status := Finished, winner := Some(r.outcome.winner)) && Some(r.outcome.winner) == CheckWinner(s.players)
    ensures !r.outcome.GameOver? ==> r == TickResult(s.(tick := s.tick + 1), Continued)
  {
    var w := CheckWinner(s.players);
    if w.Some? && w.value != "" then TickResult(s.(status := Finished, winner := w), GameOver(w.value))
    else TickResult(s.(tick := s.tick + 1), Continued)
  }

  /** What a tick does to status, winner and counter: a game-ending tick sets status finished and
      the winner, who is then the sole survivor, without advancing the counter; any other tick
      keeps status and winner; a completed one advances the counter by exactly one. */
  lemma TickStepBookkeeping(s: Snapshot, sandbox: Sandbox)
    ensures var r := TickStep(s, sandbox);
      SameRoster(s.players, r.state.players) && r.state.width == s.width && r.state.height == s.height
      && (r.outcome.GameOver? ==>
            r.state.status == Finished && r.state.winner == Some(r.outcome.winner) && r.state.tick == s.tick
            && exists j :: SoleSurvivor(r.state.players, j) && r.state.players[j].socketId == r.outcome.winner)
      && (r.outcome.Continued? ==>
            r.state.status == s.status && r.state.winner == s.winner && r.state.tick == s.tick + 1)
      && (r.outcome.Crashed? ==>
            r.state.status == s.status && r.state.winner == s.winner && r.state.tick == s.tick)
  {
    var p := Turns(s.players, |s.players|, sandbox, s.width, s.height);
    TurnsKeepRoster(s.players, |s.players|, sandbox, s.width, s.height);
    CheckWinnerSoleSurvivor(p.players);
    var r := TickStep(s, sandbox);
    if r.outcome.GameOver? {
      var j :| SoleSurvivor(p.players, j);
      assert p.players[j].socketId == r.outcome.winner;
    }
  }

  /** An action keeps every bot well-formed. */
  lemma ApplyActionKeepsWellFormed(vs: seq<PlayerView>, i: nat, a: Action, width: int, height: int)
    requires i < |vs| && AllWellFormed(vs, width, height)
    ensures AllWellFormed(ApplyAction(vs, i, a, width, height), width, height)
  {
    var r := ApplyAction(vs, i, a, width, height);
    forall k | 0 <= k < |r| ensures WellFormed(r[k].bot, width, height) {
      MoveKeepsWellFormed(vs[i].bot, a.direction, width, height);
      DamageKeepsWellFormed(vs[k].bot, AttackDamage, width, height);
    }
  }

  /** Every prefix of a tick keeps every bot on the grid with health in [0, maxHealth]. */
  lemma {:induction false} TurnsKeepWellFormed(vs: seq<PlayerView>, k: nat, sandbox: Sandbox, width: int, height: int)
    requires k <= |vs| && AllWellFormed(vs, width, height)
    ensures AllWellFormed(Turns(vs, k, sandbox, width, height).players, width, height)
  {
    if k > 0 {
      TurnsKeepWellFormed(vs, k - 1, sandbox, width, height);
      var p := Turns(vs, k - 1, sandbox, width, height);
      if p.crashed {
        TurnsAfterCrash(vs, k - 1, k, sandbox, width, height);
      } else {
        TurnsStep(vs, k - 1, sandbox, width, height);
        TurnKeepsWellFormed(p.players, k - 1, sandbox, width, height);
      }
    }
  }

  /** One turn keeps every bot well-formed. */
  lemma TurnKeepsWellFormed(vs: seq<PlayerView>, i: nat, sandbox: Sandbox, width: int, height: int)
    requires i < |vs| && AllWellFormed(vs, width, height)
    ensures AllWellFormed(Turn(vs, i, sandbox, width, height).players, width, height)
  {
    if vs[i].code != "" && Alive(vs[i].bot) {
      var c := ContextFor(vs, i, width, height);
      if c.Some? {
        ApplyActionKeepsWellFormed(vs, i, Decode(Execute(sandbox(i, vs[i].code, c.value))), width, height);
      }
    }
  }

  /** A whole tick keeps every bot well-formed. */
  lemma TickStepKeepsWellFormed(s: Snapshot, sandbox: Sandbox)
    requires AllWellFormed(s.players, s.width, s.height)
    ensures var r := TickStep(s, sandbox).state;
      r.width == s.width && r.height == s.height && AllWellFormed(r.players, r.width, r.height)
  {
    TurnsKeepWellFormed(s.players, |s.players|, sandbox, s.width, s.height);
  }

  /** With at least two distinct keys a turn always finds an opponent, so a tick never aborts;
      it can abort only in a game holding a single player. */
  lemma {:induction false} TurnsNeverCrash(vs: seq<PlayerView>, k: nat, sandbox: Sandbox, width: int, height: int)
    requires k <= |vs| && Distinct(Ids(vs)) && |vs| >= 2
    ensures !Turns(vs, k, sandbox, width, height).crashed
  {
    if k > 0 {
      TurnsNeverCrash(vs, k - 1, sandbox, width, height);
      TurnsKeepRoster(vs, k - 1, sandbox, width, height);
      var p := Turns(vs, k - 1, sandbox, width, height).players;
      var other := if k - 1 == 0 then 1 else 0;
      assert p[other].socketId == vs[other].socketId != vs[k - 1].socketId == p[k - 1].socketId;
      TurnsStep(vs, k - 1, sandbox, width, height);
    }
  }

  /** A game holding a single player (one socket matched with itself) with a living bot settles
      on its first tick: with code submitted, building its context throws; without, that player
      is the sole survivor and is declared winner, unless its key is empty. */
  lemma SinglePlayerTick(s: Snapshot, sandbox: Sandbox)
    requires |s.players| == 1 && Alive(s.players[0].bot)
    ensures var p, r := s.players[0], TickStep(s, sandbox);
      (p.code != "" ==> r == TickResult(s, Crashed))
      && (p.code == "" && p.socketId != "" ==>
            r == TickResult(s.(status := Finished, winner := Some(p.socketId)), GameOver(p.socketId)))
      && (p.code == "" && p.socketId == "" ==> r == TickResult(s.(tick := s.tick + 1), Continued))
  {
    var vs := s.players;
    TurnsStep(vs, 0, sandbox, s.width, s.height);
    if vs[0].code != "" {
      assert ContextFor(vs, 0, s.width, s.height).None?;
    } else {
      InactivePlayerSkipped(vs, 0, sandbox, s.width, s.height);
      assert SoleSurvivor(vs, 0);
      CheckWinnerSoleSurvivor(vs);
      assert s.(players := vs) == s;
    }
  }

  /** Some bot is alive. */
  predicate AnyAlive(vs: seq<PlayerView>)
  {
    exists j :: 0 <= j < |vs| && Alive(vs[j].bot)
  }

  /** A turn never kills everyone: the player who acts is alive and its own move or attack
      leaves its bot as it was, so someone is still alive afterwards. */
  lemma TurnKeepsSomeoneAlive(vs: seq<PlayerView>, i: nat, sandbox: Sandbox, width: int, height: int)
    requires i < |vs| && AnyAlive(vs)
    ensures AnyAlive(Turn(vs, i, sandbox, width, height).players)
  {
    var r := Turn(vs, i, sandbox, width, height);
    if vs[i].code != "" && Alive(vs[i].bot) && !r.crashed {
      var c := ContextFor(vs, i, width, height).value;
      var action := Decode(Execute(sandbox(i, vs[i].code, c)));
      ApplyActionEffect(vs, i, action, width, height);
      assert r.players == ApplyAction(vs, i, action, width, height);
      assert Alive(r.players[i].bot);
    }
  }

  /** Hence no tick that starts with a living bot ends with every bot dead: the double knockout
      that would leave `checkWinner` without a winner cannot arise from play. */
  lemma {:induction false} TurnsKeepSomeoneAlive(vs: seq<PlayerView>, k: nat, sandbox: Sandbox, width: int, height: int)
    requires k <= |vs| && AnyAlive(vs)
    ensures AnyAlive(Turns(vs, k, sandbox, width, height).players)
  {
    if k > 0 {
      TurnsKeepSomeoneAlive(vs, k - 1, sandbox, width, height);
      var p := Turns(vs, k - 1, sandbox, width, height);
      if !p.crashed {
        TurnKeepsSomeoneAlive(p.players, k - 1, sandbox, width, height);
      }
    }
  }

  /** A two-player tick that starts with both bots alive ends either with both alive (and goes
      on) or with exactly one alive, who is then declared winner (unless its key is empty). */
  lemma TwoPlayerTickHasNoDraw(s: Snapshot, sandbox: Sandbox)
    requires |s.players| == 2 && AnyAlive(s.players)
    ensures var r := TickStep(s, sandbox);
      AnyAlive(r.state.players)
      && (r.outcome.Continued? && s.players[0].socketId != "" && s.players[1].socketId != "" ==>
            Alive(r.state.players[0].bot) == Alive(r.state.players[1].bot))
  {
    var n := |s.players|;
    var p := Turns(s.players, n, sandbox, s.width, s.height);
    TurnsKeepSomeoneAlive(s.players, n, sandbox, s.width, s.height);
    TurnsKeepRoster(s.players, n, sandbox, s.width, s.height);
    if !p.crashed {
      assert TickStep(s, sandbox) == Settle(s.(players := p.players));
      CheckWinnerOfTwo(p.players);
    }
  }

  /** A player whose bot is dead, or whose code is empty, does nothing on its turn, whatever its
      strategy would have answered. */
  lemma InactivePlayerSkipped(vs: seq<PlayerView>, i: nat, sandbox: Sandbox, width: int, height: int)
    requires i < |vs| && (vs[i].code == "" || !Alive(vs[i].bot))
    ensures Turn(vs, i, sandbox, width, height) == Progress(vs, false)
  {
  }

  /** Turns take effect at once: when the first player's attack kills the second bot, the second
      player does not act in the same tick, and its strategy is never consulted. */
  lemma KilledBotDoesNotAct(vs: seq<PlayerView>, sandbox: Sandbox, width: int, height: int)
    requires |vs| == 2 && vs[0].socketId != vs[1].socketId && vs[0].code != "" && Alive(vs[0].bot)
    requires vs[1].bot.position == Step(vs[0].bot.position, Right) && 0 <= vs[1].bot.health <= AttackDamage
    requires forall c :: sandbox(0, vs[0].code, c) == Returned(Encode(Action(Attack, Right)))
    ensures var p := Turns(vs, 2, sandbox, width, height);
      !p.crashed && p.players == [vs[0], vs[1].(bot := vs[1].bot.(health := 0))]
  {
    var q := [vs[0], vs[1].(bot := vs[1].bot.(health := 0))];
    FirstStrikeKills(vs, sandbox, width, height);
    TurnsStep(vs, 1, sandbox, width, height);
    InactivePlayerSkipped(q, 1, sandbox, width, height);
  }

  /** The first turn of that tick: the attack takes the second bot's health to zero. */
  lemma FirstStrikeKills(vs: seq<PlayerView>, sandbox: Sandbox, width: int, height: int)
    requires |vs| == 2 && vs[0].socketId != vs[1].socketId && vs[0].code != "" && Alive(vs[0].bot)
    requires vs[1].bot.position == Step(vs[0].bot.position, Right) && 0 <= vs[1].bot.health <= AttackDamage
    requires forall c :: sandbox(0, vs[0].code, c) == Returned(Encode(Action(Attack, Right)))
    ensures Turns(vs, 1, sandbox, width, height) == Progress([vs[0], vs[1].(bot := vs[1].bot.(health := 0))], false)
  {
    TwoPlayerContexts(vs, width, height);
    ConstantStrategyActs(vs, 0, Action(Attack, Right), sandbox, width, height);
    AttackedEffect(vs, 0, Right);
    assert AttackTarget(vs, 0, Right) == Some(1);
    var r := ApplyAction(vs, 0, Action(Attack, Right), width, height);
    assert r == [vs[0], vs[1].(bot := vs[1].bot.(health := 0))];
  }

  /** In a game of two distinct players each player's context shows the other one's bot. */
  lemma TwoPlayerContexts(vs: seq<PlayerView>, width: int, height: int)
    requires |vs| == 2 && vs[0].socketId != vs[1].socketId
    ensures ContextFor(vs, 0, width, height).Some? && ContextFor(vs, 1, width, height).Some?
    ensures ContextFor(vs, 0, width, height).value.opponent == OpponentInfo(vs[1].bot.position, vs[1].bot.health)
    ensures ContextFor(vs, 1, width, height).value.opponent == OpponentInfo(vs[0].bot.position, vs[0].bot.health)
  {
    assert FirstOther(Ids(vs), vs[0].socketId) == Some(1);
    assert FirstOther(Ids(vs), vs[1].socketId) == Some(0);
  }

  /** The second player's context is built after the first player's action of the same tick:
      once the first bot has stepped right, the second player sees it one cell further right. */
  lemma SecondContextSeesFirstMove(vs: seq<PlayerView>, sandbox: Sandbox)
    requires |vs| == 2 && vs[0].socketId != vs[1].socketId && vs[0].code != "" && Alive(vs[0].bot)
    requires WellFormed(vs[0].bot, GridWidth, GridHeight) && vs[0].bot.position.x < GridWidth - 1
    requires forall c :: sandbox(0, vs[0].code, c) == Returned(Encode(Action(Move, Right)))
    ensures var p := Turns(vs, 1, sandbox, GridWidth, GridHeight);
      !p.crashed
      && ContextFor(p.players, 1, GridWidth, GridHeight).value.opponent.position
         == Step(vs[0].bot.position, Right)
  {
    FirstMovesRight(vs, sandbox);
    TwoPlayerContexts(vs[0 := vs[0].(bot := vs[0].bot.(position := Step(vs[0].bot.position, Right), facing := Right))],
                      GridWidth, GridHeight);
  }

  /** The first turn of that tick: the first bot steps right and turns to face right. */
  lemma FirstMovesRight(vs: seq<PlayerView>, sandbox: Sandbox)
    requires |vs| == 2 && vs[0].socketId != vs[1].socketId && vs[0].code != "" && Alive(vs[0].bot)
    requires WellFormed(vs[0].bot, GridWidth, GridHeight) && vs[0].bot.position.x < GridWidth - 1
    requires forall c :: sandbox(0, vs[0].code, c) == Returned(Encode(Action(Move, Right)))
    ensures Turns(vs, 1, sandbox, GridWidth, GridHeight)
         == Progress(vs[0 := vs[0].(bot := vs[0].bot.(position := Step(vs[0].bot.position, Right), facing := Right))], false)
  {
    TwoPlayerContexts(vs, GridWidth, GridHeight);
    ConstantStrategyActs(vs, 0, Action(Move, Right), sandbox, GridWidth, GridHeight);
    MoveRightApplied(vs);
  }

  /** Moving the first bot right from a column short of the last one lands one cell right. */
  lemma MoveRightApplied(vs: seq<PlayerView>)
    requires 0 < |vs| && WellFormed(vs[0].bot, GridWidth, GridHeight) && vs[0].bot.position.x < GridWidth - 1
    ensures ApplyAction(vs, 0, Action(Move, Right), GridWidth, GridHeight)
         == vs[0 := vs[0].(bot := vs[0].bot.(position := Step(vs[0].bot.position, Right), facing := Right))]
  {
    MoveInBounds(vs[0].bot, Right, GridWidth, GridHeight);
  }

  /** The two players of a new game, as the two `players.set` calls leave the Map: if both keys
      are equal the second record replaces the first and the game holds one player. */
  function InitialViews(id1: string, id2: string): (r: seq<PlayerView>)
    ensures |r| == (if id1 == id2 then 1 else 2)
    ensures r[0].socketId == id1 && r[|r| - 1].socketId == id2
  {
    if id1 == id2 then [PlayerView(id2, "", NewBot(SecondStart))]
    else [PlayerView(id1, "", NewBot(FirstStart)), PlayerView(id2, "", NewBot(SecondStart))]
  }

  /** The winner `handlePlayerDisconnect(id)` declares: the key of the first other player, if any. */
  function DisconnectWinner(ids: seq<string>, id: string): (r: Option<string>)
    ensures r.Some? ==> r.value != id && r.value in ids
    ensures r.None? <==> forall k :: 0 <= k < |ids| ==> ids[k] == id
    ensures |ids| == 2 && ids[0] != ids[1] && id == ids[0] ==> r == Some(ids[1])
    ensures |ids| == 2 && ids[0] != ids[1] && id == ids[1] ==> r == Some(ids[0])
  {
    match FirstOther(ids, id)
    case None => None
    case Some(j) => Some(ids[j])
  }
}
