/** Value types shared by the Code-Duel server core (code-duel-server/src/types.ts).
    JavaScript `number` is modelled as `int`, `string` as `seq<char>`. */
module Types {

  datatype Option<+T> = None | Some(value: T)

  /** The four directions a bot can face, move or attack in; 'up' decreases y. */
  datatype Direction = Up | Down | Left | Right

  /** The kinds of action a strategy may ask for; `NoAction` is the source's 'none'. */
  datatype ActionKind = Move | Attack | NoAction

  /** A validated strategy decision. The direction of `NoAction` is carried but ignored. */
  datatype Action = Action(action: ActionKind, direction: Direction)

  datatype Position = Position(x: int, y: int)

  datatype Status = Waiting | Running | Finished

  /** A queued player as the matchmaker sees it; the socket handle itself is I/O and is left out. */
  datatype MatchmakingPlayer = MatchmakingPlayer(socketId: string, username: string)

  /** The snapshot handed to a strategy: its own bot, the first other player's bot, the grid size.
      (The `opponents` list of the interface is never filled in by the server.) */
  datatype MyBotInfo = MyBotInfo(position: Position, health: int, facing: Direction)
  datatype OpponentInfo = OpponentInfo(position: Position, health: int)
  datatype GridInfo = GridInfo(width: int, height: int)
  datatype GameContext = GameContext(myBot: MyBotInfo, opponent: OpponentInfo, grid: GridInfo)
}
