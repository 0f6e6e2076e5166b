/** The two answers after a draw, in either order. */
module DrawVotes {
  import opened TrisTypes
  import opened GameRules
  import opened GameLife
  import opened ManagerSpec
  import opened ClientTable
  import opened Handlers

  /** A drawn game in the list, both players seated, no answer yet. */
  predicate AwaitsBoth(w: World, i: nat) {
    && i < |w.games| && UniqueIds(w.games)
    && var g := w.games[i];
    && Drawn(g) && GameOk(g) && SeatsDistinct(g)
    && g.xSocket != NOBODY && g.oSocket != NOBODY && !g.xReceived && !g.oReceived
  }

  /** What the answers should lead to, whoever answers first. */
  function Agreed(g: Game, xWants: bool, oWants: bool): Option<Game> {
    var voted := g.(xContinue := xWants, oContinue := oWants);
    if xWants && oWants then Some(voted.(st := Cleared(g.st, GameInProgress)))
    else if xWants then Some(HandedTo(voted, g.xSocket))
    else if oWants then Some(HandedTo(voted, g.oSocket))
    else None
  }

  /** Players who go on are marked with the game, the others as free. */
  function AgreedTable(t: Table, g: Game, xWants: bool, oWants: bool): Table {
    var t1 := if !xWants then SetPlaying(t, g.xSocket, false, 0) else t;
    var t2 := if !oWants then SetPlaying(t1, g.oSocket, false, 0) else t1;
    var t3 := if xWants then SetPlaying(t2, g.xSocket, true, g.id) else t2;
    if oWants then SetPlaying(t3, g.oSocket, true, g.id) else t3
  }

  function AgreedWorld(w: World, i: nat, xWants: bool, oWants: bool): World
    requires i < |w.games|
  {
    var g := w.games[i];
    var games := match Agreed(g, xWants, oWants)
      case Some(g') => w.games[i := g']
      case None => w.games[..i] + w.games[i + 1..];
    w.(games := games, table := AgreedTable(w.table, g, xWants, oWants))
  }

  lemma IndexOfUnique(games: seq<Game>, i: nat)
    requires UniqueIds(games) && i < |games|
    ensures IndexOf(games, games[i].id) == i
  {
    IndexOfIs(games, games[i].id, i);
  }

  lemma IndexOfRemoved(games: seq<Game>, i: nat)
    requires UniqueIds(games) && i < |games|
    ensures var rest := games[..i] + games[i + 1..]; IndexOf(rest, games[i].id) == |rest|
  {
    var rest := games[..i] + games[i + 1..];
    IndexOfIs(rest, games[i].id, |rest|);
  }

  /** A call on a known game that does not empty it. */
  lemma CallAt(w: World, i: nat, call: GameOp, g: Game, reply: Reply)
    requires UniqueIds(w.games) && i < |w.games| && OnGame(w.games[i], call) == (g, reply)
    requires !(call.Leave? && reply == Left && Vacant(g))
    ensures Call(w, w.games[i].id, call) == (w.(games := w.games[i := g]), reply)
    ensures UniqueIds(w.games[i := g]) && g.id == w.games[i].id
  {
    IndexOfUnique(w.games, i);
    AppliedAt(w.games, w.games[i].id, call, 0, i, g, reply);
  }

  // ---- the first answer ----

  /** The game after one answer that decides nothing. */
  function AfterFirst(g: Game, socket: int, wants: bool): Game {
    var v := Recorded(g, socket, wants);
    if wants then v else LeaveSeat(v, socket).0
  }

  lemma FirstVote(w: World, i: nat, socket: int, wants: bool)
    requires AwaitsBoth(w, i) && (socket == w.games[i].xSocket || socket == w.games[i].oSocket)
    ensures var g := w.games[i];
      VoteHandled(w, socket, g.id, wants) ==
        w.(games := w.games[i := AfterFirst(g, socket, wants)],
           table := if wants then w.table else SetPlaying(w.table, socket, false, 0))
  {
    var g := w.games[i];
    var v := Recorded(g, socket, wants);
    CallAt(w, i, PostGame(socket, wants), v, Voted(false));
    if !wants {
      var w1 := MarkPlaying(w.(games := w.games[i := v]), socket, false, 0);
      CallAt(w1, i, Leave(socket), AfterFirst(g, socket, wants), Left);
      assert w.games[i := v][i := AfterFirst(g, socket, wants)] == w.games[i := AfterFirst(g, socket, wants)];
    }
  }

  // ---- the second answer ----

  /** A game in which exactly the other player has answered; a no has left an empty seat. */
  predicate AwaitsOne(w: World, i: nat, socket: int) {
    && i < |w.games| && UniqueIds(w.games) && socket != NOBODY
    && var g := w.games[i];
    && Drawn(g) && g.waitingSocket == NOBODY && g.xSocket != g.oSocket
    && (socket == g.xSocket ==> g.oReceived && !g.xReceived && (g.oContinue <==> g.oSocket != NOBODY))
    && (socket != g.xSocket ==>
          socket == g.oSocket && g.xReceived && !g.oReceived && (g.xContinue <==> g.xSocket != NOBODY))
  }

  /** Both go on. */
  lemma SecondYesYes(w: World, i: nat, socket: int)
    requires AwaitsOne(w, i, socket) && w.games[i].xSocket != NOBODY && w.games[i].oSocket != NOBODY
    ensures var g := w.games[i];
      VoteHandled(w, socket, g.id, true) ==
        w.(games := w.games[i := g.(st := Cleared(g.st, GameInProgress), xReceived := false, oReceived := false,
                                    xContinue := true, oContinue := true)],
           table := SetPlaying(SetPlaying(w.table, g.xSocket, true, g.id), g.oSocket, true, g.id))
  {
    var g := w.games[i];
    var g' := g.(st := Cleared(g.st, GameInProgress), xReceived := false, oReceived := false,
                 xContinue := true, oContinue := true);
    CallAt(w, i, PostGame(socket, true), g', Voted(true));
    IndexOfUnique(w.games[i := g'], i);
  }

  /** The other has left, this player goes on. */
  lemma SecondYesAlone(w: World, i: nat, socket: int)
    requires AwaitsOne(w, i, socket) && (w.games[i].xSocket == NOBODY || w.games[i].oSocket == NOBODY)
    ensures var g := w.games[i];
      VoteHandled(w, socket, g.id, true) ==
        w.(games := w.games[i := HandedTo(Recorded(g, socket, true), socket).(xReceived := false, oReceived := false)],
           table := SetPlaying(w.table, socket, true, g.id))
  {
    var g := w.games[i];
    var g' := HandedTo(Recorded(g, socket, true), socket).(xReceived := false, oReceived := false);
    CallAt(w, i, PostGame(socket, true), g', Voted(true));
    IndexOfUnique(w.games[i := g'], i);
  }

  /** The other goes on, this player does not. */
  lemma SecondNoOther(w: World, i: nat, socket: int)
    requires AwaitsOne(w, i, socket) && w.games[i].xSocket != NOBODY && w.games[i].oSocket != NOBODY
    ensures var g := w.games[i];
      var other := if socket == g.xSocket then g.oSocket else g.xSocket;
      VoteHandled(w, socket, g.id, false) ==
        w.(games := w.games[i := HandedTo(Recorded(g, socket, false), other).(xReceived := false, oReceived := false)],
           table := SetPlaying(SetPlaying(w.table, socket, false, 0), other, true, g.id))
  {
    var g := w.games[i];
    var other := if socket == g.xSocket then g.oSocket else g.xSocket;
    var g' := HandedTo(Recorded(g, socket, false), other).(xReceived := false, oReceived := false);
    CallAt(w, i, PostGame(socket, false), g', Voted(true));
    var w1 := MarkPlaying(w.(games := w.games[i := g']), socket, false, 0);
    CallAt(w1, i, Leave(socket), g', Failed);
    assert w.games[i := g'][i := g'] == w.games[i := g'];
    IndexOfUnique(w.games[i := g'], i);
  }

  /** Neither goes on: the second to leave takes the game with him. */
  lemma SecondNoNo(w: World, i: nat, socket: int)
    requires AwaitsOne(w, i, socket) && (w.games[i].xSocket == NOBODY || w.games[i].oSocket == NOBODY)
    ensures VoteHandled(w, socket, w.games[i].id, false) ==
        w.(games := w.games[..i] + w.games[i + 1..], table := SetPlaying(w.table, socket, false, 0))
  {
    var g := w.games[i];
    var g' := Recorded(g, socket, false).(st := g.st.(state := GameFinished), xReceived := false, oReceived := false);
    CallAt(w, i, PostGame(socket, false), g', Voted(true));
    var games' := w.games[i := g'];
    IndexOfUnique(games', i);
    AppliedAt(games', g.id, Leave(socket), 0, i, LeaveSeat(g', socket).0, Left);
    assert games'[..i] == w.games[..i] && games'[i + 1..] == w.games[i + 1..];
    IndexOfRemoved(w.games, i);
  }

  // ---- both orders ----

  lemma Overwrite<T(!new)>(s: seq<T>, i: nat, x: T)
    requires i < |s|
    ensures forall y {:trigger s[i := x][i := y]} :: s[i := x][i := y] == s[i := y]
    ensures s[i := x][..i] + s[i := x][i + 1..] == s[..i] + s[i + 1..]
  {
    assert s[i := x][..i] == s[..i] && s[i := x][i + 1..] == s[i + 1..];
  }

  lemma AfterFirstAwaitsOne(w: World, i: nat, socket: int, other: int, wants: bool)
    requires AwaitsBoth(w, i)
    requires var g := w.games[i];
      (socket == g.xSocket && other == g.oSocket) || (socket == g.oSocket && other == g.xSocket)
    ensures AwaitsOne(VoteHandled(w, socket, w.games[i].id, wants), i, other)
  {
    FirstVote(w, i, socket, wants);
  }

  lemma XFirst(w: World, i: nat, xWants: bool, oWants: bool)
    requires AwaitsBoth(w, i)
    ensures var g := w.games[i];
      VoteHandled(VoteHandled(w, g.xSocket, g.id, xWants), g.oSocket, g.id, oWants) == AgreedWorld(w, i, xWants, oWants)
  {
    var g := w.games[i];
    FirstVote(w, i, g.xSocket, xWants);
    AfterFirstAwaitsOne(w, i, g.xSocket, g.oSocket, xWants);
    var w1 := VoteHandled(w, g.xSocket, g.id, xWants);
    Overwrite(w.games, i, w1.games[i]);
    if oWants {
      if xWants { SecondYesYes(w1, i, g.oSocket); } else { SecondYesAlone(w1, i, g.oSocket); }
    } else {
      if xWants { SecondNoOther(w1, i, g.oSocket); } else { SecondNoNo(w1, i, g.oSocket); }
    }
  }

  lemma OFirst(w: World, i: nat, xWants: bool, oWants: bool)
    requires AwaitsBoth(w, i)
    ensures var g := w.games[i];
      VoteHandled(VoteHandled(w, g.oSocket, g.id, oWants), g.xSocket, g.id, xWants) == AgreedWorld(w, i, xWants, oWants)
  {
    var g := w.games[i];
    FirstVote(w, i, g.oSocket, oWants);
    AfterFirstAwaitsOne(w, i, g.oSocket, g.xSocket, oWants);
    var w1 := VoteHandled(w, g.oSocket, g.id, oWants);
    Overwrite(w.games, i, w1.games[i]);
    SetPlayingCommutes(w.table, g.xSocket, false, 0, g.oSocket, false, 0);
    if xWants {
      if oWants { SecondYesYes(w1, i, g.xSocket); } else { SecondYesAlone(w1, i, g.xSocket); }
    } else {
      if oWants { SecondNoOther(w1, i, g.xSocket); } else { SecondNoNo(w1, i, g.xSocket); }
    }
  }

  /** The order of the answers to a draw does not matter: games and client table end up as
      agreed. Two players who go on get a blank board, one becomes the owner of a waiting game,
      and none leaves no game. */
  lemma DrawVotesAreConfluent(w: World, i: nat, xWants: bool, oWants: bool)
    requires AwaitsBoth(w, i)
    ensures var g := w.games[i];
      var xThenO := VoteHandled(VoteHandled(w, g.xSocket, g.id, xWants), g.oSocket, g.id, oWants);
      var oThenX := VoteHandled(VoteHandled(w, g.oSocket, g.id, oWants), g.xSocket, g.id, xWants);
      xThenO == oThenX == AgreedWorld(w, i, xWants, oWants)
  {
    XFirst(w, i, xWants, oWants);
    OFirst(w, i, xWants, oWants);
  }
}
