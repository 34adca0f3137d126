/** The matchmaking queue of code-duel-server/src/Matchmaking.ts: arrivals are appended, and as
    soon as two are waiting the two oldest are taken off, in order, as a match. Creating the
    game for a match, the socket joins and emits, and the 3-second delayed start are wiring
    outside this model; a match is returned instead. */
module MatchQueue {
  import opened Types

  datatype Match = Match(player1: MatchmakingPlayer, player2: MatchmakingPlayer)

  /** What `addPlayer` leaves behind: the queue, the position reported to the player, the match. */
  datatype Enqueued = Enqueued(queue: seq<MatchmakingPlayer>, position: nat, matched: Option<Match>)

  /** `addPlayer` on a queue `q`: push, report the new length, and pair the two oldest entries
      once there are two. */
  function Enqueue(q: seq<MatchmakingPlayer>, p: MatchmakingPlayer): (r: Enqueued)
    ensures r.position == |q| + 1
    ensures r.matched.Some? <==> |q| >= 1
    ensures r.matched.Some? ==> q + [p] == [r.matched.value.player1, r.matched.value.player2] + r.queue
    ensures r.matched.None? ==> r.queue == q + [p]
    ensures |q| <= 1 ==> |r.queue| <= 1
  {
    var pushed := q + [p];
    if |pushed| >= 2 then Enqueued(pushed[2..], |pushed|, Some(Match(pushed[0], pushed[1])))
    else Enqueued(pushed, |pushed|, None)
  }

  /** `queue.filter(p => p.socketId !== socketId)`. */
  function Without(q: seq<MatchmakingPlayer>, socketId: string): (r: seq<MatchmakingPlayer>)
    ensures forall x :: x in r <==> x in q && x.socketId != socketId
    ensures |r| <= |q|
  {
    if q == [] then []
    else (if q[0].socketId == socketId then [] else [q[0]]) + Without(q[1..], socketId)
  }

  /** Removing distributes over concatenation: what survives keeps its original order. */
  lemma {:induction false} WithoutAppend(a: seq<MatchmakingPlayer>, b: seq<MatchmakingPlayer>, socketId: string)
    ensures Without(a + b, socketId) == Without(a, socketId) + Without(b, socketId)
  {
    if a == [] {
      assert a + b == b;
    } else {
      assert (a + b)[1..] == a[1..] + b;
      WithoutAppend(a[1..], b, socketId);
    }
  }

  /** Removing a socket that is not queued leaves the queue as it was. */
  lemma {:induction false} WithoutAbsent(q: seq<MatchmakingPlayer>, socketId: string)
    requires forall x :: x in q ==> x.socketId != socketId
    ensures Without(q, socketId) == q
  {
    if q != [] {
      WithoutAbsent(q[1..], socketId);
    }
  }

  /** Every entry of another socket is kept, as often as it was queued. */
  lemma {:induction false} WithoutKeepsOthers(q: seq<MatchmakingPlayer>, socketId: string, x: MatchmakingPlayer)
    requires x.socketId != socketId
    ensures multiset(Without(q, socketId))[x] == multiset(q)[x]
  {
    if q != [] {
      WithoutKeepsOthers(q[1..], socketId, x);
      var head := if q[0].socketId == socketId then [] else [q[0]];
      assert multiset(Without(q, socketId)) == multiset(head) + multiset(Without(q[1..], socketId));
      assert q == [q[0]] + q[1..];
      assert multiset(q) == multiset([q[0]]) + multiset(q[1..]);
    }
  }

  /** What a run of arrivals on the queue `q` produces: the final queue and the matches made. */
  datatype Arrivals = Arrivals(queue: seq<MatchmakingPlayer>, matches: seq<Match>)

  function AddAll(q: seq<MatchmakingPlayer>, ps: seq<MatchmakingPlayer>): Arrivals
    decreases |ps|
  {
    if ps == [] then Arrivals(q, [])
    else
      var e := Enqueue(q, ps[0]);
      var rest := AddAll(e.queue, ps[1..]);
      Arrivals(rest.queue, (if e.matched.Some? then [e.matched.value] else []) + rest.matches)
  }

  /** Consecutive pairs of an even-length list of arrivals. */
  function Pairs(ps: seq<MatchmakingPlayer>): seq<Match>
    requires |ps| % 2 == 0
    decreases |ps|
  {
    if ps == [] then [] else [Match(ps[0], ps[1])] + Pairs(ps[2..])
  }

  /** From an empty queue, arrivals are matched strictly first come first served: the first with
      the second, the third with the fourth, and so on; an odd one out is left waiting. */
  lemma {:induction false} ArrivalsPairInOrder(ps: seq<MatchmakingPlayer>)
    ensures var r := AddAll([], ps);
      r.matches == Pairs(ps[..|ps| - |ps| % 2])
      && r.queue == (if |ps| % 2 == 1 then [ps[|ps| - 1]] else [])
    decreases |ps|
  {
    if |ps| == 1 {
      assert ps[..0] == [];
    } else if |ps| >= 2 {
      var rest := ps[2..];
      ArrivalsPairInOrder(rest);
      assert ps[1..][1..] == rest;
      assert ps[..|ps| - |ps| % 2][2..] == rest[..|rest| - |rest| % 2];
    }
  }

  class Matchmaking {
    var queue: seq<MatchmakingPlayer>

    constructor ()
      ensures queue == []
    {
      queue := [];
    }

    /** `addPlayer`: `position` is the 'queueJoined' position, `matched` the match it triggers. */
    method AddPlayer(player: MatchmakingPlayer) returns (position: nat, matched: Option<Match>)
      modifies this
      ensures Enqueued(queue, position, matched) == Enqueue(old(queue), player)
    {
      queue := queue + [player];
      position := |queue|;
      matched := None;
      if |queue| >= 2 {
        var m := CreateMatch();
        matched := Some(m);
      }
    }

    /** The queue part of `createMatch`: two `shift`s. It is called only with two or more waiting. */
    method CreateMatch() returns (m: Match)
      requires |queue| >= 2
      modifies this
      ensures m == Match(old(queue)[0], old(queue)[1]) && queue == old(queue)[2..]
    {
      var player1 := queue[0];
      queue := queue[1..];
      var player2 := queue[0];
      queue := queue[1..];
      m := Match(player1, player2);
    }

    /** `removePlayer`: every entry of the socket leaves; the rest keep their order. */
    method RemovePlayer(socketId: string)
      modifies this
      ensures queue == Without(old(queue), socketId)
    {
      queue := Without(queue, socketId);
    }
  }
}
