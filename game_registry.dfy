/** The two registries of code-duel-server/src/GameManager.ts: game id -> game, and
    socket id -> game id. Game ids (uuids) are parameters. */
module GameRegistry {
  import opened Types
  import opened GameRules
  import opened Games

  /** The keys of a list of player records, as a set. */
  function KeySet(ps: seq<Player>): (s: set<string>)
    ensures forall k :: k in s <==> k in SocketIds(ps)
  {
    set j | 0 <= j < |ps| :: ps[j].socketId
  }

  class GameManager {
    var games: map<string, Game>
    var playerGameMap: map<string, string>

    constructor ()
      ensures games == map[] && playerGameMap == map[]
    {
      games := map[];
      playerGameMap := map[];
    }

    /** `getGameByPlayer`: the game the socket is mapped to; nothing when the socket has no
        mapping, maps to the empty (falsy) id, or maps to an id with no game. */
    function GetGameByPlayer(socketId: string): (r: Option<Game>)
      reads this
      ensures r.Some? <==> socketId in playerGameMap && playerGameMap[socketId] != "" && playerGameMap[socketId] in games
      ensures r.Some? ==> r.value == games[playerGameMap[socketId]]
    {
      if socketId !in playerGameMap || playerGameMap[socketId] == "" then None
      else if playerGameMap[socketId] in games then Some(games[playerGameMap[socketId]])
      else None
    }

    /** `createGame`: registers a new game under `gameId` and maps both sockets to it; every other
        game and every other socket keeps its entry. */
    method CreateGame(gameId: string, player1: MatchmakingPlayer, player2: MatchmakingPlayer) returns (game: Game)
      modifies this
      ensures fresh(game) && fresh(game.Bots()) && game.Valid() && game.id == gameId
      ensures game.Snap() == Snapshot(InitialViews(player1.socketId, player2.socketId), GridWidth, GridHeight, Waiting, None, 0)
      ensures games == old(games)[gameId := game]
      ensures playerGameMap == old(playerGameMap)[player1.socketId := gameId][player2.socketId := gameId]
      ensures gameId != "" ==> GetGameByPlayer(player1.socketId) == Some(game) && GetGameByPlayer(player2.socketId) == Some(game)
    {
      game := new Game(gameId, player1, player2);
      games := games[gameId := game];
      playerGameMap := playerGameMap[player1.socketId := gameId][player2.socketId := gameId];
      assert playerGameMap[player1.socketId] == gameId && playerGameMap[player2.socketId] == gameId;
    }

    /** `removeGame`: drops the game and the mapping of every socket among its players; an
        unknown id changes nothing. */
    method RemoveGame(gameId: string)
      modifies this
      ensures gameId !in old(games) ==> games == old(games) && playerGameMap == old(playerGameMap)
      ensures gameId in old(games) ==>
        games == old(games) - {gameId}
        && playerGameMap == old(playerGameMap) - KeySet(old(games[gameId].state.players))
    {
      if gameId in games {
        var game := games[gameId];
        var players := game.GetPlayers();
        var i := 0;
        while i < |players|
          invariant 0 <= i <= |players| && games == old(games)
          invariant playerGameMap == old(playerGameMap) - KeySet(players[..i])
        {
          assert KeySet(players[..i + 1]) == KeySet(players[..i]) + {players[i].socketId} by {
            assert SocketIds(players[..i + 1]) == SocketIds(players[..i]) + [players[i].socketId];
          }
          playerGameMap := playerGameMap - {players[i].socketId};
          i := i + 1;
        }
        assert players[..i] == players;
        games := games - {gameId};
      }
    }

    /** `handleDisconnect`: forwards to the game the socket is mapped to, if any; nothing else
        changes, and with no such game nothing happens at all. */
    method HandleDisconnect(socketId: string) returns (notified: Option<string>)
      modifies if GetGameByPlayer(socketId).Some? then {GetGameByPlayer(socketId).value} else {}
      ensures games == old(games) && playerGameMap == old(playerGameMap)
      ensures old(GetGameByPlayer(socketId)).None? ==> notified == None
      ensures old(GetGameByPlayer(socketId)).Some? ==>
        var game := old(GetGameByPlayer(socketId)).value;
        notified == DisconnectWinner(SocketIds(old(game.state.players)), socketId)
        && game.state == old(game.state).(status := Finished, winner := if notified.Some? then notified else old(game.state.winner))
    {
      var game := GetGameByPlayer(socketId);
      notified := None;
      if game.Some? {
        notified := game.value.HandlePlayerDisconnect(socketId);
      }
    }
  }
}
