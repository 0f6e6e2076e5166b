/** What is left of a client after it leaves, is accepted as an owner, or disconnects. */
module Departures {
  import opened TrisTypes
  import opened GameRules
  import opened GameLife
  import opened ManagerSpec
  import opened CleanupSpec
  import opened ClientTable
  import opened Handlers

  function OwnedCount(games: seq<Game>, socket: int, spared: u32): nat { |OwnedOnly(games, socket, spared)| }

  lemma {:induction false} OwnedConcat(a: seq<Game>, b: seq<Game>, socket: int, spared: u32)
    ensures OwnedOnly(a + b, socket, spared) == OwnedOnly(a, socket, spared) + OwnedOnly(b, socket, spared)
  {
    if b == [] {
      assert a + b == a;
    } else {
      var n := |b| - 1;
      assert (a + b)[..|a + b| - 1] == a + b[..n];
      OwnedConcat(a, b[..n], socket, spared);
    }
  }

  /** The number of owned games, with game i counted apart. */
  lemma OwnedAround(a: seq<Game>, g: Game, b: seq<Game>, socket: int, spared: u32)
    ensures OwnedCount(a + [g] + b, socket, spared) ==
      OwnedCount(a + b, socket, spared) + (if OwnedBy(g, socket, spared) then 1 else 0)
  {
    OwnedConcat(a + [g], b, socket, spared);
    OwnedConcat(a, [g], socket, spared);
    OwnedConcat(a, b, socket, spared);
    assert [g][..0] == [];
  }

  lemma OwnedAfterUpdate(games: seq<Game>, i: nat, g: Game, socket: int, spared: u32)
    requires i < |games|
    ensures var rest := OwnedCount(games[..i] + games[i + 1..], socket, spared);
      && OwnedCount(games, socket, spared) == rest + (if OwnedBy(games[i], socket, spared) then 1 else 0)
      && OwnedCount(games[i := g], socket, spared) == rest + (if OwnedBy(g, socket, spared) then 1 else 0)
  {
    var a, b := games[..i], games[i + 1..];
    assert games == a + [games[i]] + b && games[i := g] == a + [g] + b;
    OwnedAround(a, games[i], b, socket, spared);
    OwnedAround(a, g, b, socket, spared);
  }

  /** The games other than the first with the given id. */
  function Others(games: seq<Game>, id: u32): seq<Game> {
    var i := IndexOf(games, id);
    if i == |games| then games else games[..i] + games[i + 1..]
  }

  /** A leave takes its game from those the socket owns, and no other. */
  lemma OwnedAfterLeave(games: seq<Game>, id: u32, socket: int, spared: u32)
    requires AllDistinct(games) && socket != NOBODY
    ensures OwnedCount(Apply(games, On(id, Leave(socket)), 0).0, socket, spared) ==
            OwnedCount(Others(games, id), socket, spared)
    ensures OwnedCount(Others(games, id), socket, spared) <= OwnedCount(games, socket, spared)
  {
    var i := IndexOf(games, id);
    if i < |games| {
      LeaveClearsSocket(games[i], socket);
      OwnedAfterUpdate(games, i, LeaveSeat(games[i], socket).0, socket, spared);
    }
  }

  /** After a leave nobody finds the socket in the game it left. */
  lemma LeftTarget(games: seq<Game>, id: u32, socket: int, g: Game)
    requires UniqueIds(games) && AllDistinct(games) && socket != NOBODY
    requires g in Apply(games, On(id, Leave(socket)), 0).0 && g.id == id
    ensures !SitsIn(g, socket)
  {
    var i := IndexOf(games, id);
    var games' := Apply(games, On(id, Leave(socket)), 0).0;
    var k :| 0 <= k < |games'| && games'[k] == g;
    if i < |games| {
      LeaveClearsSocket(games[i], socket);
      if |games'| == |games| { assert k == i; }
    }
  }

  /** Whoever accepts a join owns afterwards, if it owned at most 128 others, nothing but
      possibly the accepted game. */
  lemma AcceptedOwnsOneGame(w: World, socket: int, id: u32)
    requires UniqueIds(w.games) && socket != NOBODY
    requires Call(w, id, Decide(true)).1.Decided? && OwnedCount(w.games, socket, id) <= CLEANUP_LIMIT
    ensures forall g :: g in DecisionHandled(w, socket, true, id).games ==> g.xSocket != socket || g.id == id
  {
    var i := IndexOf(w.games, id);
    var games1 := Apply(w.games, On(id, Decide(true)), 0).0;
    ApplyKeepsUniqueIds(w.games, On(id, Decide(true)), 0);
    OwnedAfterUpdate(w.games, i, DecideJoin(w.games[i], true).0, socket, id);
    CleanupLeavesNothing(games1, socket, id);
  }

  /** A leave on one game keeps all others. */
  lemma LeaveKeepsOthers(games: seq<Game>, id: u32, socket: int, k: nat)
    requires k < |games| && games[k].id != id
    ensures games[k] in Apply(games, On(id, Leave(socket)), 0).0
  {
    var i := IndexOf(games, id);
    if i < |games| {
      var games' := Apply(games, On(id, Leave(socket)), 0).0;
      if |games'| == |games| {
        assert games'[k] == games[k];
      } else {
        assert games'[if k < i then k else k - 1] == games[k];
      }
    }
  }

  /** A cleanup keeps every game the socket does not own. */
  lemma CleanupKeepsOthers(games: seq<Game>, socket: int, spared: u32, k: nat)
    requires UniqueIds(games) && k < |games| && games[k].xSocket != socket
    ensures games[k] in LeaveAll(games, OwnedIds(games, socket, spared), socket)
  {
    var ids := OwnedIds(games, socket, spared);
    CleanupIsExact(games, socket, spared);
    if games[k].id in ids {
      var m :| 0 <= m < |ids| && ids[m] == games[k].id;
      var j := OwnedIdMember(games, socket, spared, m);
    }
    CleanedTo(games, ids, k, games[k]);
  }

  /** With more than 128 owned games some are not collected. */
  lemma {:induction false} OwnedLeftOver(games: seq<Game>, socket: int, spared: u32) returns (j: nat)
    requires UniqueIds(games) && OwnedCount(games, socket, spared) > CLEANUP_LIMIT
    ensures j < |games| && OwnedBy(games[j], socket, spared) && games[j].id !in OwnedIds(games, socket, spared)
  {
    var n := |games| - 1;
    var ids := OwnedIds(games[..n], socket, spared);
    OwnedIdsAreFirst(games[..n], socket, spared);
    if OwnedCount(games[..n], socket, spared) > CLEANUP_LIMIT {
      j := OwnedLeftOver(games[..n], socket, spared);
    } else {
      j := n;
      forall m | 0 <= m < |ids| ensures ids[m] != games[n].id {
        var k := OwnedIdMember(games[..n], socket, spared, m);
      }
    }
  }

  /** The games after a departure: leave the recorded game, if any, then clean up. */
  function Departed(games: seq<Game>, recorded: Option<u32>, socket: int): seq<Game> {
    var left := if recorded.None? then games else Apply(games, On(recorded.value, Leave(socket)), 0).0;
    LeaveAll(left, OwnedIds(left, socket, 0), socket)
  }

  /** The owned games that a departure has to clean up. */
  function ToCleanUp(games: seq<Game>, recorded: Option<u32>, socket: int): nat {
    OwnedCount(if recorded.None? then games else Others(games, recorded.value), socket, 0)
  }

  /** A departure looks at the recorded game and at games the client owns, other than game 0. */
  predicate LooksAt(g: Game, recorded: Option<u32>, socket: int) {
    recorded == Some(g.id) || OwnedBy(g, socket, 0)
  }

  predicate NowhereSeated(games: seq<Game>, socket: int) {
    forall g :: g in games ==> !SitsIn(g, socket)
  }

  predicate SeatsSeen(games: seq<Game>, recorded: Option<u32>, socket: int) {
    forall g :: g in games && SitsIn(g, socket) ==> LooksAt(g, recorded, socket)
  }

  /** A game that is still listed after the first leave was not left, or has lost the socket. */
  lemma LeftFrom(games: seq<Game>, id: u32, socket: int, g: Game)
    requires UniqueIds(games) && AllDistinct(games) && socket != NOBODY
    requires g in Apply(games, On(id, Leave(socket)), 0).0 && SitsIn(g, socket)
    ensures g in games && g.id != id
  {
    if g.id == id { LeftTarget(games, id, socket, g); }
  }

  lemma CleanedSeat(games: seq<Game>, socket: int, g: Game)
    requires UniqueIds(games) && AllDistinct(games) && socket != NOBODY && OwnedCount(games, socket, 0) <= CLEANUP_LIMIT
    requires g in LeaveAll(games, OwnedIds(games, socket, 0), socket) && SitsIn(g, socket)
    ensures g in games && !OwnedBy(g, socket, 0)
  {
    CleanupIsExact(games, socket, 0);
    var ids := OwnedIds(games, socket, 0);
    var k := CleanedFrom(games, ids, g);
    if games[k].id in ids {
      var m :| 0 <= m < |ids| && ids[m] == games[k].id;
      var j := OwnedIdMember(games, socket, 0, m);
    }
    if OwnedBy(games[k], socket, 0) { OwnedIdsComplete(games, socket, 0, k); }
  }

  lemma CleanupLeavesUnseen(games: seq<Game>, socket: int, k: nat)
    requires UniqueIds(games) && k < |games| && !OwnedBy(games[k], socket, 0)
    ensures games[k] in LeaveAll(games, OwnedIds(games, socket, 0), socket)
  {
    if games[k].xSocket == socket {
      CleanupSparesGameZero(games, socket, k);
    } else {
      CleanupKeepsOthers(games, socket, 0, k);
    }
  }

  /** More than 128 owned games: one of them keeps its owner. */
  lemma CleanupTooSmall(games: seq<Game>, socket: int)
    requires UniqueIds(games) && OwnedCount(games, socket, 0) > CLEANUP_LIMIT
    ensures !NowhereSeated(LeaveAll(games, OwnedIds(games, socket, 0), socket), socket)
  {
    var j := OwnedLeftOver(games, socket, 0);
    CleanupIsExact(games, socket, 0);
    CleanedTo(games, OwnedIds(games, socket, 0), j, games[j]);
    assert SitsIn(games[j], socket);
  }

  lemma CleanupFreesExactly(games: seq<Game>, socket: int)
    requires UniqueIds(games) && AllDistinct(games) && socket != NOBODY
    ensures NowhereSeated(LeaveAll(games, OwnedIds(games, socket, 0), socket), socket) <==>
      OwnedCount(games, socket, 0) <= CLEANUP_LIMIT && SeatsSeen(games, None, socket)
  {
    var after := LeaveAll(games, OwnedIds(games, socket, 0), socket);
    if OwnedCount(games, socket, 0) > CLEANUP_LIMIT {
      CleanupTooSmall(games, socket);
    } else {
      forall g | g in after && SitsIn(g, socket) ensures g in games && !OwnedBy(g, socket, 0) {
        CleanedSeat(games, socket, g);
      }
      forall k | 0 <= k < |games| && !OwnedBy(games[k], socket, 0) ensures games[k] in after {
        CleanupLeavesUnseen(games, socket, k);
      }
    }
  }

  /** The leave moves the question from one list to the next. */
  lemma LeaveSees(games: seq<Game>, id: u32, socket: int)
    requires UniqueIds(games) && AllDistinct(games) && socket != NOBODY
    ensures SeatsSeen(Apply(games, On(id, Leave(socket)), 0).0, None, socket) <==> SeatsSeen(games, Some(id), socket)
  {
    var left := Apply(games, On(id, Leave(socket)), 0).0;
    forall g | g in left && SitsIn(g, socket) ensures g in games && g.id != id {
      LeftFrom(games, id, socket, g);
    }
    forall k | 0 <= k < |games| && games[k].id != id ensures games[k] in left {
      LeaveKeepsOthers(games, id, socket, k);
    }
  }

  lemma LeaveKeepsDistinct(games: seq<Game>, id: u32, socket: int)
    requires UniqueIds(games) && AllDistinct(games)
    ensures UniqueIds(Apply(games, On(id, Leave(socket)), 0).0) && AllDistinct(Apply(games, On(id, Leave(socket)), 0).0)
  {
    ApplyKeepsUniqueIds(games, On(id, Leave(socket)), 0);
    var i := IndexOf(games, id);
    if i < |games| { LeaveKeepsSeatsDistinct(games[i], socket); }
  }

  /** A departure gives back every seat of the client exactly when each of them is in the recorded
      game or is the X seat of another game than game 0, and at most 128 games are to clean up. */
  lemma DepartureFreesExactly(games: seq<Game>, recorded: Option<u32>, socket: int)
    requires UniqueIds(games) && AllDistinct(games) && socket != NOBODY
    ensures NowhereSeated(Departed(games, recorded, socket), socket) <==>
      ToCleanUp(games, recorded, socket) <= CLEANUP_LIMIT && SeatsSeen(games, recorded, socket)
  {
    if recorded.None? {
      CleanupFreesExactly(games, socket);
    } else {
      var left := Apply(games, On(recorded.value, Leave(socket)), 0).0;
      LeaveKeepsDistinct(games, recorded.value, socket);
      CleanupFreesExactly(left, socket);
      OwnedAfterLeave(games, recorded.value, socket, 0);
      LeaveSees(games, recorded.value, socket);
    }
  }

  /** The game a client is recorded in, if any. */
  function RecordedGame(t: Table, socket: int): Option<u32> {
    var current := CurrentGame(t, socket);
    if current == NO_GAME_ID then None else Some(AsU32(current))
  }

  /** When a disconnect gives back every seat of the client. Seats that survive are those of a
      waiting joiner or an O player in another game than the recorded one, and of X in game 0. */
  lemma DisconnectFreesExactly(w: World, socket: int)
    requires UniqueIds(w.games) && AllDistinct(w.games) && socket != NOBODY
    ensures NowhereSeated(DisconnectHandled(w, socket).games, socket) <==>
      && ToCleanUp(w.games, RecordedGame(w.table, socket), socket) <= CLEANUP_LIMIT
      && SeatsSeen(w.games, RecordedGame(w.table, socket), socket)
  {
    DepartureFreesExactly(w.games, RecordedGame(w.table, socket), socket);
  }

  /** When a leave request does; the id it carries counts for a client recorded in no game. */
  lemma LeaveFreesExactly(w: World, socket: int, provided: u32)
    requires UniqueIds(w.games) && AllDistinct(w.games) && socket != NOBODY
    ensures var w', target := LeaveHandled(w, socket, provided), Some(LeaveTarget(w, socket, provided));
      && CurrentGame(w'.table, socket) == NO_GAME_ID
      && (NowhereSeated(w'.games, socket) <==>
            ToCleanUp(w.games, target, socket) <= CLEANUP_LIMIT && SeatsSeen(w.games, target, socket))
  {
    DepartureFreesExactly(w.games, Some(LeaveTarget(w, socket, provided)), socket);
    SameSlots(w.table, LeaveHandled(w, socket, provided).table, socket);
  }

  /** What a departure does to each single game it does not look at: nothing. */
  lemma UnseenGameStays(games: seq<Game>, recorded: Option<u32>, socket: int, k: nat)
    requires UniqueIds(games) && k < |games| && !LooksAt(games[k], recorded, socket)
    ensures games[k] in Departed(games, recorded, socket)
  {
    if recorded.None? {
      CleanupLeavesUnseen(games, socket, k);
    } else {
      var left := Apply(games, On(recorded.value, Leave(socket)), 0).0;
      LeaveKeepsOthers(games, recorded.value, socket, k);
      ApplyKeepsUniqueIds(games, On(recorded.value, Leave(socket)), 0);
      var m :| 0 <= m < |left| && left[m] == games[k];
      CleanupLeavesUnseen(left, socket, m);
    }
  }

  /** In particular a seat held while waiting to be accepted elsewhere is never given back. */
  lemma WaitingSeatSurvivesDisconnect(w: World, socket: int, k: nat)
    requires UniqueIds(w.games) && AllDistinct(w.games) && socket != NOBODY
    requires k < |w.games| && w.games[k].waitingSocket == socket
    requires RecordedGame(w.table, socket) != Some(w.games[k].id)
    ensures w.games[k] in DisconnectHandled(w, socket).games
  {
    UnseenGameStays(w.games, RecordedGame(w.table, socket), socket, k);
  }

  /** After a leave request the client has no seat in the game it was recorded in, and, if at most
      128 games were to clean up, it owns no game but possibly game 0. */
  lemma LeaveFreesTheClient(w: World, socket: int, provided: u32)
    requires UniqueIds(w.games) && AllDistinct(w.games) && socket != NOBODY
    requires ToCleanUp(w.games, Some(LeaveTarget(w, socket, provided)), socket) <= CLEANUP_LIMIT
    ensures var w' := LeaveHandled(w, socket, provided);
      && (forall g :: g in w'.games ==> g.xSocket != socket || g.id == 0)
      && (forall g :: g in w'.games && g.id == LeaveTarget(w, socket, provided) ==> !SitsIn(g, socket))
      && CurrentGame(w'.table, socket) == NO_GAME_ID
  {
    SameSlots(w.table, LeaveHandled(w, socket, provided).table, socket);
    var target := LeaveTarget(w, socket, provided);
    var left := Apply(w.games, On(target, Leave(socket)), 0).0;
    LeaveKeepsDistinct(w.games, target, socket);
    OwnedAfterLeave(w.games, target, socket, 0);
    forall g | g in LeaveHandled(w, socket, provided).games && SitsIn(g, socket)
      ensures g.id != target && !OwnedBy(g, socket, 0)
    {
      CleanedSeat(left, socket, g);
      LeftFrom(w.games, target, socket, g);
    }
  }

  lemma LeaveInPlace(games: seq<Game>, i: nat, socket: int)
    requires UniqueIds(games) && i < |games| && SeatsDistinct(games[i]) && socket != NOBODY && SitsIn(games[i], socket)
    ensures var left, g' := Apply(games, On(games[i].id, Leave(socket)), 0).0, OnGame(games[i], Leave(socket)).0;
      && !OwnedBy(g', socket, 0)
      && left == if LastOccupant(games[i], socket) then games[..i] + games[i + 1..] else games[i := g']
  {
    IndexOfIs(games, games[i].id, i);
    LeaveClearsSocket(games[i], socket);
  }

  lemma CleanupAddsNoId(games: seq<Game>, socket: int, id: u32)
    requires UniqueIds(games) && forall k :: 0 <= k < |games| ==> games[k].id != id
    ensures forall g :: g in LeaveAll(games, OwnedIds(games, socket, 0), socket) ==> g.id != id
  {
    CleanupIsExact(games, socket, 0);
    forall g | g in Cleaned(games, OwnedIds(games, socket, 0)) ensures g.id != id {
      var k := CleanedFrom(games, OwnedIds(games, socket, 0), g);
    }
  }

  /** What a departure does to the game the client is recorded in, if it sits there: the seat is
      given back, and the game is deleted if it was the last one taken. */
  lemma DepartureLeavesRecorded(games: seq<Game>, i: nat, socket: int)
    requires UniqueIds(games) && i < |games| && SeatsDistinct(games[i]) && socket != NOBODY && SitsIn(games[i], socket)
    ensures var after := Departed(games, Some(games[i].id), socket);
      if LastOccupant(games[i], socket) then forall g :: g in after ==> g.id != games[i].id
      else OnGame(games[i], Leave(socket)).0 in after
  {
    var left := Apply(games, On(games[i].id, Leave(socket)), 0).0;
    LeaveInPlace(games, i, socket);
    ApplyKeepsUniqueIds(games, On(games[i].id, Leave(socket)), 0);
    if LastOccupant(games[i], socket) {
      CleanupAddsNoId(left, socket, games[i].id);
    } else {
      CleanupLeavesUnseen(left, socket, i);
    }
  }
}
