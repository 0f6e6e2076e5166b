/** What each call does to a game, told by the fields of the game before and after. */
module GameLaws {
  import opened TrisTypes
  import opened GameRules
  import opened GameLife

  // ---- moves ----

  /** The socket is in the seat on turn, and the cell is a blank one of a game in progress. */
  predicate MayMove(g: Game, socket: int, row: u8, col: u8) {
    && g.st.state == GameInProgress
    && row <= 2 && col <= 2 && g.st.board[3 * row + col] == Blank
    && socket == if g.st.turn == PlayerX then g.xSocket else g.oSocket
  }

  /** A move is accepted exactly from the seat whose turn it is, onto a blank cell of a game in
      progress. Any other move changes nothing. */
  lemma MoveAcceptedExactly(g: Game, socket: int, row: u8, col: u8)
    requires SeatsDistinct(g) && socket != NOBODY
    ensures var (g', reply) := OnGame(g, Play(socket, row, col));
      && (reply.Played? <==> MayMove(g, socket, row, col))
      && (!reply.Played? ==> reply == Failed && g' == g)
  {
  }

  /** An accepted move marks its cell for the player whose seat made it and passes the turn; a
      reported outcome is also the result that both players keep. */
  lemma MoveWrites(g: Game, socket: int, row: u8, col: u8)
    requires GameOk(g) && OnGame(g, Play(socket, row, col)).1.Played?
    ensures MayMove(g, socket, row, col)
    ensures var (g', reply) := OnGame(g, Play(socket, row, col));
      && g' == g.(st := g'.st) && g'.st.role == g.st.role
      && g'.st.board == g.st.board[3 * row + col := if g.st.turn == PlayerX then MarkX else MarkO]
      && g'.st.turn == (if g.st.turn == PlayerX then PlayerO else PlayerX)
      && match reply.winner
         case Undecided => g'.st.state == GameInProgress && g'.st.resultX == g'.st.resultO == ResultNone
         case XWins => g'.st.state == GameFinished && g'.st.resultX == ResultWin && g'.st.resultO == ResultLoss
         case OWins => g'.st.state == GameFinished && g'.st.resultX == ResultLoss && g'.st.resultO == ResultWin
         case DrawnGame => g'.st.state == GameFinished && g'.st.resultX == g'.st.resultO == ResultDraw
  {
    MoveReport(g, socket, row, col);
  }

  // ---- joins and decisions ----

  /** A join succeeds exactly in a waiting game whose only occupied seat can be X. It takes the
      waiting seat and nothing else, so it displaces nobody. */
  lemma JoinTakesFreeSeat(g: Game, socket: int, name: Option<seq<u8>>)
    ensures var (g', reply) := OnGame(g, Join(socket, name));
      && (reply == Joined <==> g.st.state == GameWaiting && g.oSocket == NOBODY && g.waitingSocket == NOBODY)
      && (reply == Joined ==>
            && g' == g.(waitingSocket := socket, waiting := g'.waiting)
            && g'.waiting == match name case Some(n) => CopyName(n) case None => g.waiting)
      && (reply != Joined ==> reply == Failed && g' == g)
      && forall s :: s != NOBODY && SitsIn(g, s) ==> SitsIn(g', s)
  {
  }

  /** While somebody waits to be let in, he stays in the waiting seat through every call but a
      decision and his own leave; in particular nobody else can join. */
  lemma PendingStays(g: Game, op: GameOp)
    requires GameOk(g) && RealSocket(op) && g.waitingSocket != NOBODY
    requires !op.Decide? && op != Leave(g.waitingSocket)
    ensures var (g', reply) := OnGame(g, op);
      g'.waitingSocket == g.waitingSocket && (op.Join? ==> reply == Failed && g' == g)
  {
    if op.PostGame? { assert !Drawn(g) && g.st.resultX == ResultNone; }
  }

  /** Accepting seats the waiting player as O and starts the game; rejecting only frees the
      waiting seat. Without a waiting player a decision changes nothing. */
  lemma DecisionAnswers(g: Game, accepted: bool)
    ensures var (g', reply) := OnGame(g, Decide(accepted));
      && (g.waitingSocket == NOBODY ==> reply == Failed && g' == g)
      && (g.waitingSocket != NOBODY ==>
            && reply == Decided(if accepted then Some(PlayerO) else None)
            && g'.waitingSocket == NOBODY && CLength(g'.waiting) == 0
            && g'.oSocket == (if accepted then g.waitingSocket else g.oSocket)
            && g'.st == (if accepted then g.st.(state := GameInProgress) else g.st)
            && g' == g.(oSocket := g'.oSocket, waitingSocket := NOBODY, waiting := g'.waiting, st := g'.st))
  {
  }

  /** After a reject the next player can join. */
  lemma RejectedIsOpenAgain(g: Game, socket: int, name: Option<seq<u8>>)
    requires GameOk(g) && g.waitingSocket != NOBODY
    ensures OnGame(OnGame(g, Decide(false)).0, Join(socket, name)).1 == Joined
  {
  }

  // ---- leaves ----

  /** One game with the seat of the socket given back, and nothing else changed. */
  predicate Emptied(g: Game, g': Game, socket: int) {
    && g' == g.(xSocket := if g.xSocket == socket then NOBODY else g.xSocket,
                oSocket := if g.oSocket == socket then NOBODY else g.oSocket,
                waitingSocket := if g.waitingSocket == socket then NOBODY else g.waitingSocket,
                waiting := g'.waiting)
    && (if g.waitingSocket == socket then CLength(g'.waiting) == 0 else g'.waiting == g.waiting)
  }

  /** A leave empties the seat of the socket and changes nothing else. */
  lemma LeaveEmptiesSeat(g: Game, socket: int)
    requires SeatsDistinct(g) && socket != NOBODY
    ensures var (g', reply) := OnGame(g, Leave(socket));
      && reply == (if SitsIn(g, socket) then Left else Failed)
      && (if reply == Left then Emptied(g, g', socket) else g' == g)
  {
  }

  // ---- votes ----

  /** The vote after X has won. The winner's yes opens the game for him alone, his no leaves it
      as it is; both settle it. The loser's answer is only noted. */
  lemma VoteAfterXWon(g: Game, wants: bool)
    requires GameOk(g) && SeatsDistinct(g) && g.st.state == GameFinished && g.st.resultX == ResultWin
    ensures g.xSocket != NOBODY ==>
      var (g', reply) := OnGame(g, PostGame(g.xSocket, wants));
      && reply == Voted(true)
      && (wants ==> OpenFor(g', g.xSocket) && OnlySettled(g.(xReceived := true, xContinue := true), g'))
      && (!wants ==> g' == g.(xReceived := true, xContinue := false))
    ensures g.oSocket != NOBODY ==>
      OnGame(g, PostGame(g.oSocket, wants)) == (g.(oReceived := true, oContinue := wants), Voted(false))
  {
  }

  /** The same after O has won: the winner becomes X of the open game. */
  lemma VoteAfterOWon(g: Game, wants: bool)
    requires GameOk(g) && SeatsDistinct(g) && g.st.state == GameFinished && g.st.resultO == ResultWin
    ensures g.oSocket != NOBODY ==>
      var (g', reply) := OnGame(g, PostGame(g.oSocket, wants));
      && reply == Voted(true)
      && (wants ==> OpenFor(g', g.oSocket) && OnlySettled(g.(oReceived := true, oContinue := true), g'))
      && (!wants ==> g' == g.(oReceived := true, oContinue := false))
    ensures g.xSocket != NOBODY ==>
      OnGame(g, PostGame(g.xSocket, wants)) == (g.(xReceived := true, xContinue := wants), Voted(false))
  {
  }

  /** What a settled vote may change: the seats and the state. */
  predicate OnlySettled(v: Game, g': Game) {
    g' == v.(xSocket := g'.xSocket, oSocket := g'.oSocket, waitingSocket := g'.waitingSocket, st := g'.st)
  }

  /** The second answer to a draw: two who go on play again, one who goes on alone gets the game,
      and without any the game stays finished. Both answers are used up. */
  predicate DrawSettled(g: Game, g': Game, xWants: bool, oWants: bool) {
    && !g'.xReceived && !g'.oReceived
    && OnlySettled(g.(xReceived := false, oReceived := false, xContinue := xWants, oContinue := oWants), g')
    && (xWants == oWants ==>
          && g'.xSocket == g.xSocket && g'.oSocket == g.oSocket && g'.waitingSocket == g.waitingSocket
          && if xWants then Blanked(g'.st, GameInProgress) else g'.st == g.st)
    && (xWants != oWants ==> OpenFor(g', if xWants then g.xSocket else g.oSocket))
  }

  lemma DrawVoteOfX(g: Game, wants: bool)
    requires GameOk(g) && SeatsDistinct(g) && g.st.state == GameFinished && g.st.resultX == ResultDraw
    requires g.xSocket != NOBODY
    ensures var (g', reply) := OnGame(g, PostGame(g.xSocket, wants));
      && reply == Voted(g.oReceived)
      && if g.oReceived then DrawSettled(g, g', wants, g.oContinue)
         else g' == g.(xReceived := true, xContinue := wants)
  {
  }

  lemma DrawVoteOfO(g: Game, wants: bool)
    requires GameOk(g) && SeatsDistinct(g) && g.st.state == GameFinished && g.st.resultX == ResultDraw
    requires g.oSocket != NOBODY
    ensures var (g', reply) := OnGame(g, PostGame(g.oSocket, wants));
      && reply == Voted(g.xReceived)
      && if g.xReceived then DrawSettled(g, g', g.xContinue, wants)
         else g' == g.(oReceived := true, oContinue := wants)
  {
  }

  /** Whoever plays neither X nor O has no vote. */
  lemma StrangersHaveNoVote(g: Game, socket: int, wants: bool)
    requires socket != g.xSocket && socket != g.oSocket
    ensures OnGame(g, PostGame(socket, wants)) == (g, Failed)
  {
  }

  // ---- queries ----

  /** A query changes nothing. */
  lemma QueriesOnlyRead(g: Game, op: GameOp)
    requires op.OwnerSocket? || op.Players? || op.StateOf? || op.WaitingSocket?
    ensures OnGame(g, op).0 == g
  {
  }

  lemma StateIsShown(g: Game)
    ensures OnGame(g, StateOf).1 == StateIs(g.st)
  {
  }

  /** The state asked for after a move is the state with the move in it. */
  lemma StateShowsMove(g: Game, socket: int, row: u8, col: u8)
    requires GameOk(g) && OnGame(g, Play(socket, row, col)).1.Played?
    ensures row <= 2 && col <= 2
    ensures var reply := OnGame(OnGame(g, Play(socket, row, col)).0, StateOf).1;
      && reply.StateIs? && reply.st.turn != g.st.turn
      && reply.st.board == g.st.board[3 * row + col := if socket == g.xSocket then MarkX else MarkO]
  {
    MoveWrites(g, socket, row, col);
    StateIsShown(OnGame(g, Play(socket, row, col)).0);
  }

  /** From a join to its acceptance, as the queries see it. */
  lemma QueriesShowJoin(g: Game, socket: int, name: Option<seq<u8>>)
    requires OnGame(g, Join(socket, name)).1 == Joined && socket != NOBODY
    ensures var joined := OnGame(g, Join(socket, name)).0;
      var accepted := OnGame(joined, Decide(true)).0;
      && OnGame(joined, WaitingSocket).1 == Socket(socket)
      && OnGame(joined, Players).1 == PlayersAre(g.xSocket, NOBODY)
      && OnGame(accepted, WaitingSocket).1 == Socket(NOBODY)
      && OnGame(accepted, Players).1 == PlayersAre(g.xSocket, socket)
      && OnGame(accepted, OwnerSocket).1 == Socket(g.xSocket)
      && OnGame(accepted, StateOf).1 == StateIs(g.st.(state := GameInProgress))
  {
  }

  /** O who won and goes on is the owner from then on. */
  lemma QueriesShowNewOwner(g: Game)
    requires GameOk(g) && SeatsDistinct(g) && g.st.state == GameFinished && g.st.resultO == ResultWin
    requires g.oSocket != NOBODY
    ensures var g' := OnGame(g, PostGame(g.oSocket, true)).0;
      OnGame(g', OwnerSocket).1 == Socket(g.oSocket) && OnGame(g', Players).1 == PlayersAre(g.oSocket, NOBODY)
  {
    VoteAfterOWon(g, true);
  }
}
