/** The answers after a win, as the server handles them: games and client table. */
module WinVotes {
  import opened TrisTypes
  import opened GameRules
  import opened GameLife
  import opened GameLaws
  import opened ManagerSpec
  import opened ClientTable
  import opened Handlers
  import opened DrawVotes

  /** A won game in the list. */
  predicate Won(w: World, i: nat) {
    && i < |w.games| && UniqueIds(w.games) && SocketsDistinct(w.table)
    && var g := w.games[i];
    && GameOk(g) && SeatsDistinct(g) && g.st.state == GameFinished
    && (g.st.resultX == ResultWin || g.st.resultO == ResultWin)
  }

  predicate WinnerIs(g: Game, socket: int) {
    socket != NOBODY && socket == if g.st.resultX == ResultWin then g.xSocket else g.oSocket
  }

  predicate LoserIs(g: Game, socket: int) {
    socket != NOBODY && socket == if g.st.resultX == ResultWin then g.oSocket else g.xSocket
  }

  /** An open game is settled by marking its owner. */
  lemma OpenIsSettled(w: World, i: nat, socket: int)
    requires UniqueIds(w.games) && i < |w.games| && socket != NOBODY && OpenFor(w.games[i], socket)
    ensures Settled(w, socket, w.games[i].id, true) == MarkPlaying(w, socket, true, w.games[i].id)
  {
    IndexOfUnique(w.games, i);
  }

  /** The winner goes on: the game is his alone and open, and he is marked as playing it. The
      loser's mark is not touched. */
  lemma WinnerGoesOn(w: World, i: nat, socket: int)
    requires Won(w, i) && WinnerIs(w.games[i], socket)
    ensures var g := w.games[i];
      var w' := VoteHandled(w, socket, g.id, true);
      && |w'.games| == |w.games| && w'.games == w.games[i := w'.games[i]] && w'.created == w.created
      && OpenFor(w'.games[i], socket) && OnlySettled(Recorded(g, socket, true), w'.games[i])
      && Remarked(w.table, w'.table, socket, true, AsI32(g.id))
  {
    var g := w.games[i];
    if g.st.resultX == ResultWin { VoteAfterXWon(g, true); } else { VoteAfterOWon(g, true); }
    var g' := OnGame(g, PostGame(socket, true)).0;
    CallAt(w, i, PostGame(socket, true), g', Voted(true));
    OpenIsSettled(w.(games := w.games[i := g']), i, socket);
    SetPlayingMeaning(w.table, socket, true, g.id);
  }

  /** The loser wants to go on: that is noted, and nothing happens. */
  lemma LoserGoesOn(w: World, i: nat, socket: int)
    requires Won(w, i) && LoserIs(w.games[i], socket)
    ensures var g := w.games[i];
      VoteHandled(w, socket, g.id, true) == w.(games := w.games[i := Recorded(g, socket, true)])
  {
    var g := w.games[i];
    if g.st.resultX == ResultWin { VoteAfterXWon(g, true); } else { VoteAfterOWon(g, true); }
    CallAt(w, i, PostGame(socket, true), Recorded(g, socket, true), Voted(false));
  }

  /** The list after the player has left game i, which holds his noted answer. */
  predicate LeftBehind(games: seq<Game>, games': seq<Game>, i: nat, socket: int)
    requires i < |games|
  {
    var g := games[i];
    var v := Recorded(g, socket, false);
    if socket == g.xSocket then
      games' == if g.oSocket == NOBODY then games[..i] + games[i + 1..] else games[i := v.(xSocket := NOBODY)]
    else
      games' == if g.xSocket == NOBODY then games[..i] + games[i + 1..] else games[i := v.(oSocket := NOBODY)]
  }

  lemma VoterLeaves(w: World, w1: World, i: nat, socket: int)
    requires i < |w.games| && UniqueIds(w.games) && socket != NOBODY && SeatsDistinct(w.games[i])
    requires socket == w.games[i].xSocket || socket == w.games[i].oSocket
    requires w.games[i].waitingSocket == NOBODY
    requires w1.games == w.games[i := Recorded(w.games[i], socket, false)]
    ensures var (w2, reply) := Call(w1, w.games[i].id, Leave(socket));
      reply == Left && LeftBehind(w.games, w2.games, i, socket) && w2 == w1.(games := w2.games)
  {
    var g, v := w.games[i], Recorded(w.games[i], socket, false);
    var g' := OnGame(v, Leave(socket)).0;
    IndexOfUnique(w1.games, i);
    AppliedAt(w1.games, g.id, Leave(socket), 0, i, g', Left);
    assert w1.games[..i] == w.games[..i] && w1.games[i + 1..] == w.games[i + 1..];
    assert w.games[i := v][i := g'] == w.games[i := g'];
  }

  /** Nobody else is marked after an answer that leaves the game finished or gone. */
  lemma NothingToSettle(w: World, w2: World, i: nat, socket: int)
    requires Won(w, i) && LeftBehind(w.games, w2.games, i, socket)
    requires socket == w.games[i].xSocket || socket == w.games[i].oSocket
    ensures Settled(w2, socket, w.games[i].id, false) == w2
  {
    IndexOfRemoved(w.games, i);
    if |w2.games| == |w.games| { IndexOfUnique(w2.games, i); }
  }

  /** A player who does not go on, winner or loser, gives up his seat and his mark; the game stays
      finished for the other player, or is deleted if there is none. */
  lemma NoAfterWin(w: World, i: nat, socket: int)
    requires Won(w, i) && (WinnerIs(w.games[i], socket) || LoserIs(w.games[i], socket))
    ensures var w' := VoteHandled(w, socket, w.games[i].id, false);
      && LeftBehind(w.games, w'.games, i, socket) && w'.created == w.created
      && Remarked(w.table, w'.table, socket, false, -1)
  {
    var g := w.games[i];
    if g.st.resultX == ResultWin { VoteAfterXWon(g, false); } else { VoteAfterOWon(g, false); }
    var v := Recorded(g, socket, false);
    var w1 := w.(games := w.games[i := v]);
    CallAt(w, i, PostGame(socket, false), v, Voted(WinnerIs(g, socket)));
    VoterLeaves(w, MarkPlaying(w1, socket, false, 0), i, socket);
    NothingToSettle(w, OptOut(w1, socket, g.id), i, socket);
    SetPlayingMeaning(w.table, socket, false, 0);
  }
}
