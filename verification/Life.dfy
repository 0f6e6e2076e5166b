/** What every call keeps true of a game, and what its reports mean. */
module GameLife {
  import opened TrisTypes
  import opened GameRules

  // ---- the invariant of a game ----

  function One(b: bool): nat { if b then 1 else 0 }

  function Count(b: seq<Mark>, m: Mark): nat {
    if b == [] then 0 else One(b[0] == m) + Count(b[1..], m)
  }

  predicate NoLine(b: Board) { !HasLine(b, MarkX) && !HasLine(b, MarkO) }

  /** X has made as many moves as O, or one more when it is O's turn. */
  predicate Balanced(st: GameCommonState) {
    Count(st.board, MarkX) == Count(st.board, MarkO) + One(st.turn == PlayerO)
  }

  /** Results agree with the board. The last case is a game that O gave up in the middle. */
  predicate ResultsMatch(st: GameCommonState) {
    && Balanced(st)
    && (st.resultX == ResultWin ==>
          st.resultO == ResultLoss && st.turn == PlayerO && HasLine(st.board, MarkX) && !HasLine(st.board, MarkO))
    && (st.resultX == ResultLoss ==>
          st.resultO == ResultWin && st.turn == PlayerX && HasLine(st.board, MarkO) && !HasLine(st.board, MarkX))
    && (st.resultX == ResultDraw ==>
          st.resultO == ResultDraw && st.turn == PlayerO && NoLine(st.board) && !HasBlank(st.board))
    && (st.resultX == ResultNone ==> st.resultO == ResultNone && NoLine(st.board) && HasBlank(st.board))
  }

  predicate GameOk(g: Game) {
    && g.st.state != GameNew
    && (g.waitingSocket != NOBODY ==> g.st.state == GameWaiting)
    && (g.st.state == GameWaiting ==> g.oSocket == NOBODY && g.st == Cleared(g.st, GameWaiting))
    && (g.st.state == GameInProgress ==>
          && g.st.resultX == g.st.resultO == ResultNone
          && NoLine(g.st.board) && HasBlank(g.st.board) && Balanced(g.st))
    && (g.st.state == GameFinished ==> ResultsMatch(g.st))
  }

  lemma NewGameOk(id: u32, socket: int, owner: Option<seq<u8>>)
    ensures GameOk(NewGame(id, socket, owner))
  {
    EmptyBoardFacts();
  }

  lemma EmptyBoardFacts()
    ensures NoLine(EMPTY_BOARD) && HasBlank(EMPTY_BOARD)
    ensures Count(EMPTY_BOARD, MarkX) == Count(EMPTY_BOARD, MarkO) == 0
  {
    assert EMPTY_BOARD[0] == Blank;
    NoMarkCount(EMPTY_BOARD, MarkX);
    NoMarkCount(EMPTY_BOARD, MarkO);
  }

  lemma {:induction false} NoMarkCount(b: seq<Mark>, m: Mark)
    requires forall k :: 0 <= k < |b| ==> b[k] != m
    ensures Count(b, m) == 0
  {
    if b != [] { NoMarkCount(b[1..], m); }
  }

  lemma {:induction false} PlacedCount(b: seq<Mark>, k: nat, m: Mark, n: Mark)
    requires k < |b| && b[k] == Blank && m != Blank && n != Blank
    ensures Count(b[k := m], n) == Count(b, n) + One(n == m)
  {
    if k == 0 {
      assert b[k := m][1..] == b[1..];
    } else {
      assert b[k := m][1..] == b[1..][k - 1 := m];
      PlacedCount(b[1..], k - 1, m, n);
    }
  }

  /** A mark cannot complete a line of the other mark. */
  lemma PlacedLine(b: Board, k: nat, m: Mark, n: Mark)
    requires k < 9 && b[k] == Blank && m != n && n != Blank && HasLine(b[k := m], n)
    ensures HasLine(b, n)
  {
    var l :| 0 <= l < 8 && Owns(b[k := m], n, l);
    assert Owns(b, n, l);
  }

  lemma {:induction false} FullCount(b: seq<Mark>)
    requires forall k :: 0 <= k < |b| ==> b[k] != Blank
    ensures Count(b, MarkX) + Count(b, MarkO) == |b|
  {
    if b != [] { FullCount(b[1..]); }
  }

  /** With no blank cell left and the marks balanced, X has made the ninth move. */
  lemma FullBoardTurn(st: GameCommonState)
    requires Balanced(st) && !HasBlank(st.board)
    ensures st.turn == PlayerO
  {
    FullCount(st.board);
  }

  /** One more mark on a board without a line: what the verdict can be. */
  lemma PlacedVerdict(st: GameCommonState, k: nat)
    requires k < 9 && st.board[k] == Blank && NoLine(st.board) && Balanced(st)
    ensures var board := st.board[k := MarkOf(st.turn)];
      var winner := Verdict(board);
      && Balanced(st.(board := board, turn := Opponent(st.turn)))
      && (winner == XWins <==> st.turn == PlayerX && HasLine(board, MarkX))
      && (winner == OWins <==> st.turn == PlayerO && HasLine(board, MarkO))
      && (winner == XWins ==> !HasLine(board, MarkO))
      && (winner == OWins ==> !HasLine(board, MarkX))
      && (winner == DrawnGame ==> st.turn == PlayerX && NoLine(board) && !HasBlank(board))
      && (winner == Undecided ==> NoLine(board) && HasBlank(board))
  {
    var m, other := MarkOf(st.turn), MarkOf(Opponent(st.turn));
    var board := st.board[k := m];
    var next := st.(board := board, turn := Opponent(st.turn));
    PlacedCount(st.board, k, m, MarkX);
    PlacedCount(st.board, k, m, MarkO);
    VerdictMeaning(board);
    assert Balanced(next);
    if HasLine(board, other) { PlacedLine(st.board, k, m, other); }
    if !HasBlank(board) { FullBoardTurn(next); }
  }

  /** An accepted move: who is reported, and why that is honest. */
  lemma MoveReport(g: Game, socket: int, row: u8, col: u8)
    requires GameOk(g) && Accepts(g, socket, row, col)
    ensures var (g', reply) := PlayMove(g, socket, row, col);
      && GameOk(g') && reply.Played?
      && g'.st.board == g.st.board[3 * row + col := MarkOf(g.st.turn)]
      && (reply.winner == Undecided <==> g'.st.state == GameInProgress)
      && (reply.winner == XWins <==> g.st.turn == PlayerX && HasLine(g'.st.board, MarkX))
      && (reply.winner == OWins <==> g.st.turn == PlayerO && HasLine(g'.st.board, MarkO))
      && (reply.winner == XWins ==> !HasLine(g'.st.board, MarkO))
      && (reply.winner == OWins ==> !HasLine(g'.st.board, MarkX))
      && (reply.winner == DrawnGame ==> g.st.turn == PlayerX && NoLine(g'.st.board) && !HasBlank(g'.st.board))
  {
    PlacedVerdict(g.st, 3 * row + col);
  }

  lemma DrawVoteKeepsGameOk(g: Game)
    requires GameOk(g) && Drawn(g)
    ensures GameOk(DrawPostGame(g).0)
  {
    EmptyBoardFacts();
  }

  lemma WinVoteKeepsGameOk(g: Game, socket: int, wants: bool)
    requires GameOk(g) && !Drawn(g) && SeatOf(g, socket).Some? && socket != NOBODY
    ensures GameOk(WinPostGame(g, g.st.resultX == ResultWin, socket, wants).0)
  {
    EmptyBoardFacts();
  }

  lemma VoteKeepsGameOk(g: Game, socket: int, wants: bool)
    requires GameOk(g) && socket != NOBODY
    ensures GameOk(PostGameVote(g, socket, wants).0)
  {
    if SeatOf(g, socket).Some? {
      var v := Recorded(g, socket, wants);
      assert v.st == g.st && GameOk(v);
      if Drawn(g) { DrawVoteKeepsGameOk(v); } else { WinVoteKeepsGameOk(v, socket, wants); }
    }
  }

  /** The seats matter to the invariant only while the game is waiting. */
  lemma SameStateOk(g: Game, g': Game)
    requires GameOk(g) && g'.st == g.st
    requires g'.waitingSocket != NOBODY ==> g.st.state == GameWaiting
    requires g.st.state == GameWaiting ==> g'.oSocket == NOBODY
    ensures GameOk(g')
  {
  }

  lemma DecideKeepsGameOk(g: Game, accepted: bool)
    requires GameOk(g)
    ensures GameOk(DecideJoin(g, accepted).0)
  {
    var g' := DecideJoin(g, accepted).0;
    if g.waitingSocket != NOBODY && accepted {
      EmptyBoardFacts();
      assert g'.st == Cleared(g.st, GameInProgress);
    } else {
      SameStateOk(g, g');
    }
  }

  /** Every call keeps the invariant of the game it works on. */
  lemma CallKeepsGameOk(g: Game, op: GameOp)
    requires GameOk(g) && RealSocket(op)
    ensures GameOk(OnGame(g, op).0)
  {
    match op
    case Join(socket, name) => SameStateOk(g, JoinGame(g, socket, name).0);
    case Decide(accepted) => DecideKeepsGameOk(g, accepted);
    case Leave(socket) => SameStateOk(g, LeaveSeat(g, socket).0);
    case Play(socket, row, col) => if Accepts(g, socket, row, col) { MoveReport(g, socket, row, col); }
    case PostGame(socket, wants) => VoteKeepsGameOk(g, socket, wants);
    case _ =>
  }

  // ---- the board is the replay of the accepted moves ----

  /** Cells chosen since the last reset, in order; X moves first and turns alternate. */
  function Replayed(moves: seq<nat>): Board
    requires forall k :: 0 <= k < |moves| ==> moves[k] < 9
  {
    if moves == [] then EMPTY_BOARD
    else
      var n := |moves| - 1;
      Replayed(moves[..n])[moves[n] := if n % 2 == 0 then MarkX else MarkO]
  }

  predicate Distinct<T(==)>(s: seq<T>) {
    forall i, j :: 0 <= i < j < |s| ==> s[i] != s[j]
  }

  predicate Honest(g: Game, moves: seq<nat>) {
    && (forall k :: 0 <= k < |moves| ==> moves[k] < 9)
    && Distinct(moves)
    && |moves| <= 9
    && g.st.board == Replayed(moves)
    && (g.st.turn == PlayerX <==> |moves| % 2 == 0)
  }

  /** A call that puts the game back on a blank board. */
  predicate Resets(g: Game, op: GameOp) {
    op.PostGame? &&
    var (g', reply) := PostGameVote(g, op.socket, op.wants);
    reply == Voted(true) && g'.st.state != GameFinished
  }

  /** The history after a call: an accepted move is appended, a reset starts afresh. */
  function History(g: Game, op: GameOp, moves: seq<nat>): seq<nat> {
    if op.Play? && PlayMove(g, op.socket, op.row, op.col).1.Played? then moves + [3 * op.row + op.col]
    else if Resets(g, op) then []
    else moves
  }

  lemma {:induction false} ReplayedCells(moves: seq<nat>)
    requires forall k :: 0 <= k < |moves| ==> moves[k] < 9
    ensures forall c :: 0 <= c < 9 ==> (Replayed(moves)[c] == Blank <==> c !in moves)
  {
    if moves != [] {
      var n := |moves| - 1;
      ReplayedCells(moves[..n]);
      assert moves == moves[..n] + [moves[n]];
    }
  }

  /** Distinct cells of a nine-cell board: at most nine of them. */
  lemma AtMostNine(moves: seq<nat>)
    requires forall k :: 0 <= k < |moves| ==> moves[k] < 9
    requires Distinct(moves)
    ensures |moves| <= 9
  {
    PigeonHole(moves, 9);
  }

  lemma {:induction false} PigeonHole(s: seq<nat>, n: nat)
    requires Distinct(s) && forall k :: 0 <= k < |s| ==> s[k] < n
    ensures |s| <= n
    decreases n
  {
    if s != [] {
      assert s[0] < n;
      if j :| 0 <= j < |s| && s[j] == n - 1 {
        PigeonHole(s[..j] + s[j + 1..], n - 1);
      } else {
        PigeonHole(s, n - 1);
      }
    }
  }

  lemma NewGameHonest(id: u32, socket: int, owner: Option<seq<u8>>)
    ensures Honest(NewGame(id, socket, owner), [])
  {
  }

  lemma CallKeepsHonest(g: Game, op: GameOp, moves: seq<nat>)
    requires Honest(g, moves)
    ensures Honest(OnGame(g, op).0, History(g, op, moves))
  {
    match op
    case Play(socket, row, col) => MoveKeepsHonest(g, socket, row, col, moves);
    case PostGame(socket, wants) => VoteKeepsHonest(g, socket, wants, moves);
    case _ =>
  }

  lemma MoveKeepsHonest(g: Game, socket: int, row: u8, col: u8, moves: seq<nat>)
    requires Honest(g, moves)
    ensures Honest(PlayMove(g, socket, row, col).0, History(g, Play(socket, row, col), moves))
  {
    if Accepts(g, socket, row, col) {
      assert History(g, Play(socket, row, col), moves) == moves + [3 * row + col];
      AcceptedKeepsHonest(g, socket, row, col, moves);
    }
  }

  lemma AcceptedKeepsHonest(g: Game, socket: int, row: u8, col: u8, moves: seq<nat>)
    requires Honest(g, moves) && Accepts(g, socket, row, col)
    ensures Honest(PlayMove(g, socket, row, col).0, moves + [3 * row + col])
  {
    HonestAfter(g, PlayMove(g, socket, row, col).0, 3 * row + col, moves);
  }

  lemma HonestAfter(g: Game, g': Game, c: nat, moves: seq<nat>)
    requires Honest(g, moves) && c < 9 && g.st.board[c] == Blank
    requires g'.st.board == g.st.board[c := MarkOf(g.st.turn)] && g'.st.turn == Opponent(g.st.turn)
    ensures Honest(g', moves + [c])
  {
    AppendedMove(moves, c);
    NextParity(|moves|);
  }

  lemma AppendedMove(moves: seq<nat>, c: nat)
    requires (forall k :: 0 <= k < |moves| ==> moves[k] < 9) && Distinct(moves)
    requires c < 9 && Replayed(moves)[c] == Blank
    ensures Distinct(moves + [c]) && |moves| < 9
    ensures Replayed(moves + [c]) == Replayed(moves)[c := if |moves| % 2 == 0 then MarkX else MarkO]
  {
    var next := moves + [c];
    ReplayedCells(moves);
    assert next[..|moves|] == moves;
    AtMostNine(next);
  }

  lemma VoteKeepsHonest(g: Game, socket: int, wants: bool, moves: seq<nat>)
    requires Honest(g, moves)
    ensures Honest(OnGame(g, PostGame(socket, wants)).0, History(g, PostGame(socket, wants), moves))
  {
    VoteBoard(g, socket, wants);
  }

  /** A vote either resets the board, and says so, or leaves board and turn alone. */
  lemma VoteBoard(g: Game, socket: int, wants: bool)
    ensures var g' := PostGameVote(g, socket, wants).0;
      if Resets(g, PostGame(socket, wants)) then g'.st == Cleared(g.st, g'.st.state)
      else g'.st.board == g.st.board && g'.st.turn == g.st.turn
  {
    if SeatOf(g, socket).Some? {
      var v := Recorded(g, socket, wants);
      if Drawn(g) {
        DrawVoteBoard(v);
      } else {
        WinVoteBoard(v, g.st.resultX == ResultWin, socket, wants);
      }
    }
  }

  lemma DrawVoteBoard(g: Game)
    ensures var (g', both) := DrawPostGame(g);
      if both && g'.st.state != GameFinished then g'.st == Cleared(g.st, g'.st.state)
      else g'.st.board == g.st.board && g'.st.turn == g.st.turn
  {
  }

  lemma WinVoteBoard(g: Game, xWon: bool, socket: int, wants: bool)
    ensures var (g', both) := WinPostGame(g, xWon, socket, wants);
      if both && g'.st.state != GameFinished then g'.st == Cleared(g.st, g'.st.state)
      else g'.st.board == g.st.board && g'.st.turn == g.st.turn
  {
  }

  // ---- seats ----

  /** No socket sits in two seats. */
  predicate SeatsDistinct(g: Game) {
    && (g.xSocket != NOBODY ==> g.xSocket != g.oSocket && g.xSocket != g.waitingSocket)
    && (g.oSocket != NOBODY ==> g.oSocket != g.waitingSocket)
  }

  /** The handler's guard: nobody asks to join the game he owns. */
  predicate NotOwnGame(g: Game, op: GameOp) {
    op.Join? ==> op.socket != g.xSocket
  }

  lemma CallKeepsSeatsDistinct(g: Game, op: GameOp)
    requires SeatsDistinct(g) && NotOwnGame(g, op)
    ensures SeatsDistinct(OnGame(g, op).0)
  {
    match op
    case PostGame(socket, wants) => VoteKeepsSeatsDistinct(g, socket, wants);
    case Play(socket, row, col) =>
      var g' := PlayMove(g, socket, row, col).0;
      assert g' == g.(st := g'.st);
    case Leave(socket) => LeaveKeepsSeatsDistinct(g, socket);
    case _ =>
  }

  lemma VoteKeepsSeatsDistinct(g: Game, socket: int, wants: bool)
    requires SeatsDistinct(g)
    ensures SeatsDistinct(PostGameVote(g, socket, wants).0)
  {
    var v := Recorded(g, socket, wants);
    DrawVoteKeepsSeats(v);
    WinVoteKeepsSeats(v, g.st.resultX == ResultWin, socket, wants);
  }

  lemma DrawVoteKeepsSeats(v: Game)
    requires SeatsDistinct(v)
    ensures SeatsDistinct(DrawPostGame(v).0)
  {
    assert forall s: int {:trigger HandedTo(v, s)} :: SeatsDistinct(HandedTo(v, s));
  }

  lemma WinVoteKeepsSeats(v: Game, xWon: bool, socket: int, wants: bool)
    requires SeatsDistinct(v)
    ensures SeatsDistinct(WinPostGame(v, xWon, socket, wants).0)
  {
  }

  lemma LeaveKeepsSeatsDistinct(g: Game, socket: int)
    requires SeatsDistinct(g)
    ensures SeatsDistinct(LeaveSeat(g, socket).0)
  {
  }

  predicate SitsIn(g: Game, socket: int) {
    socket == g.xSocket || socket == g.oSocket || socket == g.waitingSocket
  }

  /** A leave succeeds exactly for a seated socket, takes it out of the game altogether, and
      finds the game vacant exactly when it was the last occupant. */
  lemma LeaveClearsSocket(g: Game, socket: int)
    requires SeatsDistinct(g) && socket != NOBODY
    ensures var (g', reply) := LeaveSeat(g, socket);
      && (reply == Left <==> SitsIn(g, socket))
      && (reply != Left ==> g' == g)
      && !SitsIn(g', socket)
      && (forall other :: other != socket && other != NOBODY ==> (SitsIn(g', other) <==> SitsIn(g, other)))
      && (reply == Left ==> (Vacant(g') <==> forall other :: other != NOBODY && SitsIn(g, other) ==> other == socket))
  {
    var (g', reply) := LeaveSeat(g, socket);
    if reply == Left && !Vacant(g') {
      var other := if g'.xSocket != NOBODY then g'.xSocket
                   else if g'.oSocket != NOBODY then g'.oSocket else g'.waitingSocket;
      assert SitsIn(g, other) && other != NOBODY && other != socket;
    }
  }

  /** The owner rejects after having left: the guard of the branch that can empty a listed game. */
  predicate OrphanReject(g: Game, op: GameOp) {
    op == Decide(false) && g.xSocket == NOBODY && g.oSocket == NOBODY && g.waitingSocket != NOBODY
  }

  /** The last draw vote is a no while the earlier yes came from a seat that is empty by now. */
  predicate OrphanVote(g: Game, op: GameOp) {
    && op.PostGame? && !op.wants && Drawn(g)
    && ((op.socket == g.xSocket && g.oReceived && g.oContinue && g.oSocket == NOBODY) ||
        (op.socket != g.xSocket && op.socket == g.oSocket && g.xReceived && g.xContinue && g.xSocket == NOBODY))
  }

  /** Exactly two kinds of call leave a game without occupants in the list. A successful leave
      is not one of them: it deletes the game it empties. */
  lemma VacantExactly(g: Game, op: GameOp)
    requires RealSocket(op) && !Vacant(g) && !op.Leave?
    ensures Vacant(OnGame(g, op).0) <==> OrphanReject(g, op) || OrphanVote(g, op)
  {
    match op
    case PostGame(socket, wants) => VoteVacates(g, socket, wants);
    case Play(socket, row, col) =>
      var g' := PlayMove(g, socket, row, col).0;
      assert g' == g.(st := g'.st);
    case _ =>
  }

  lemma VoteVacates(g: Game, socket: int, wants: bool)
    requires socket != NOBODY && !Vacant(g)
    ensures Vacant(PostGameVote(g, socket, wants).0) <==> OrphanVote(g, PostGame(socket, wants))
  {
    var v := Recorded(g, socket, wants);
    if Drawn(g) && SeatOf(g, socket).Some? {
      DrawVacates(v);
    }
  }

  lemma DrawVacates(v: Game)
    requires !Vacant(v)
    ensures Vacant(DrawPostGame(v).0) <==>
      v.xReceived && v.oReceived &&
      ((v.xContinue && !v.oContinue && v.xSocket == NOBODY) || (!v.xContinue && v.oContinue && v.oSocket == NOBODY))
  {
  }

  // ---- draw votes ----

  /** The first vote after a drawing move settles the draw at once exactly when the other seat
      still carries an answer from an earlier round: the flags are not cleared when a game ends. */
  lemma DrawVoteIsFreshExactly(g: Game, mover: int, row: u8, col: u8, voter: int, wants: bool)
    requires GameOk(g) && SeatsDistinct(g) && voter != NOBODY
    requires OnGame(g, Play(mover, row, col)).1 == Played(DrawnGame)
    requires SeatOf(g, voter).Some?
    ensures var drawn := OnGame(g, Play(mover, row, col)).0;
      OnGame(drawn, PostGame(voter, wants)).1 ==
        Voted(if SeatOf(g, voter) == Some(PlayerX) then g.oReceived else g.xReceived)
  {
    MoveReport(g, mover, row, col);
  }

  /** The state of a cleared board: X to move and no results. */
  predicate Blanked(st: GameCommonState, state: GameState) {
    && st.state == state && st.turn == PlayerX && st.resultX == st.resultO == ResultNone
    && forall k :: 0 <= k < 9 ==> st.board[k] == Blank
  }

  /** A game with nobody but its owner, waiting for an opponent. */
  predicate OpenFor(g: Game, owner: int) {
    g.xSocket == owner && g.oSocket == NOBODY && g.waitingSocket == NOBODY && Blanked(g.st, GameWaiting)
  }

  /** Post-game decisions are not limited to games with a result. Without one, a vote is only
      noted when it comes from X, but acts at once when it comes from O: a yes hands the game to
      O, a no ends it without results. */
  lemma VoteBeforeTheEnd(g: Game, voter: int, wants: bool)
    requires GameOk(g) && SeatsDistinct(g) && (g.st.state != GameFinished || g.st.resultX == ResultNone)
    requires voter != NOBODY && (voter == g.xSocket || voter == g.oSocket)
    ensures var (g', reply) := OnGame(g, PostGame(voter, wants));
      && reply == Voted(voter == g.oSocket)
      && (voter == g.xSocket ==> g' == g.(xReceived := true, xContinue := wants))
      && (voter == g.oSocket && !wants ==>
            && g' == g.(oReceived := true, oContinue := false, st := g.st.(state := GameFinished))
            && g'.st.resultX == g'.st.resultO == ResultNone)
      && (voter == g.oSocket && wants ==>
            && OpenFor(g', voter)
            && g' == g.(oReceived := true, oContinue := true, xSocket := voter, oSocket := NOBODY,
                        waitingSocket := NOBODY, st := g'.st))
  {
    assert g.st.resultX == g.st.resultO == ResultNone;
  }

  /** The game after a series of calls. */
  function Calls(g: Game, ops: seq<GameOp>): Game {
    if ops == [] then g
    else
      var n := |ops| - 1;
      OnGame(Calls(g, ops[..n]), ops[n]).0
  }

  /** The two players making the given moves in turn. */
  function Plays(x: int, o: int, moves: seq<nat>): (ops: seq<GameOp>)
    requires forall k :: 0 <= k < |moves| ==> moves[k] < 9
    ensures |ops| == |moves|
  {
    if moves == [] then []
    else
      var n := |moves| - 1;
      Plays(x, o, moves[..n]) + [Play(if n % 2 == 0 then x else o, moves[n] / 3, moves[n] % 3)]
  }

  lemma {:induction false} ReplayedCount(moves: seq<nat>)
    requires (forall k :: 0 <= k < |moves| ==> moves[k] < 9) && Distinct(moves)
    ensures Count(Replayed(moves), MarkX) + Count(Replayed(moves), MarkO) == |moves|
  {
    if moves == [] {
      EmptyBoardFacts();
    } else {
      var n := |moves| - 1;
      var before := Replayed(moves[..n]);
      ReplayedCount(moves[..n]);
      ReplayedCells(moves[..n]);
      var m := if n % 2 == 0 then MarkX else MarkO;
      PlacedCount(before, moves[n], m, MarkX);
      PlacedCount(before, moves[n], m, MarkO);
    }
  }

  /** The state reached by a series of moves that completes no line. */
  predicate ReachedBy(st: GameCommonState, moves: seq<nat>)
    requires forall k :: 0 <= k < |moves| ==> moves[k] < 9
  {
    && st.board == Replayed(moves)
    && st.turn == (if |moves| % 2 == 0 then PlayerX else PlayerO)
    && (|moves| < 9 ==> st.state == GameInProgress && st.resultX == st.resultO == ResultNone)
    && (|moves| >= 9 ==> st.state == GameFinished && st.resultX == st.resultO == ResultDraw)
  }

  /** Every alternating sequence of distinct cells that never completes a line can be played:
      no move of it is refused, and nine of them end the game as a draw. */
  lemma {:induction false} PlayThrough(g: Game, moves: seq<nat>)
    requires g.st == Cleared(g.st, GameInProgress) && g.xSocket != g.oSocket
    requires (forall k :: 0 <= k < |moves| ==> moves[k] < 9) && Distinct(moves)
    requires NoLine(Replayed(moves))
    ensures var g' := Calls(g, Plays(g.xSocket, g.oSocket, moves));
      g' == g.(st := g'.st) && ReachedBy(g'.st, moves)
  {
    if moves != [] {
      var n := |moves| - 1;
      LastMove(moves);
      PlayThrough(g, moves[..n]);
      LastPlay(g, g.xSocket, g.oSocket, moves);
      NextPlay(g, Calls(g, Plays(g.xSocket, g.oSocket, moves[..n])), moves);
    }
  }

  /** The last move of a series, made by the player whose turn it is. */
  lemma NextPlay(g: Game, before: Game, moves: seq<nat>)
    requires (forall k :: 0 <= k < |moves| ==> moves[k] < 9) && 0 < |moves| <= 9 && g.xSocket != g.oSocket
    requires before == g.(st := before.st) && ReachedBy(before.st, moves[..|moves| - 1])
    requires var n, c := |moves| - 1, moves[|moves| - 1];
      && Replayed(moves[..n])[c] == Blank
      && Replayed(moves) == Replayed(moves[..n])[c := if n % 2 == 0 then MarkX else MarkO]
      && Verdict(Replayed(moves)) == (if n == 8 then DrawnGame else Undecided)
    ensures var n := |moves| - 1;
      var g' := PlayMove(before, if n % 2 == 0 then g.xSocket else g.oSocket, moves[n] / 3, moves[n] % 3).0;
      g' == g.(st := g'.st) && ReachedBy(g'.st, moves)
  {
    var n := |moves| - 1;
    CellNumber(moves[n]);
    NextParity(n);
    PlayStep(before, moves[n] / 3, moves[n] % 3, moves);
  }

  lemma LastPlay(g: Game, x: int, o: int, moves: seq<nat>)
    requires (forall k :: 0 <= k < |moves| ==> moves[k] < 9) && moves != []
    ensures var n := |moves| - 1;
      Calls(g, Plays(x, o, moves)) ==
        PlayMove(Calls(g, Plays(x, o, moves[..n])), if n % 2 == 0 then x else o, moves[n] / 3, moves[n] % 3).0
  {
    var n, ops := |moves| - 1, Plays(x, o, moves);
    assert ops[..n] == Plays(x, o, moves[..n]);
    assert ops[n] == Play(if n % 2 == 0 then x else o, moves[n] / 3, moves[n] % 3);
  }

  lemma PlayStep(g: Game, row: u8, col: u8, moves: seq<nat>)
    requires (forall k :: 0 <= k < |moves| ==> moves[k] < 9) && 0 < |moves| <= 9
    requires ReachedBy(g.st, moves[..|moves| - 1]) && g.xSocket != g.oSocket
    requires row <= 2 && col <= 2 && moves[|moves| - 1] == 3 * row + col
    requires var n := |moves| - 1;
      && Replayed(moves[..n])[3 * row + col] == Blank
      && Replayed(moves) == Replayed(moves[..n])[3 * row + col := if n % 2 == 0 then MarkX else MarkO]
      && Verdict(Replayed(moves)) == (if n == 8 then DrawnGame else Undecided)
    ensures var g' := PlayMove(g, if |moves| % 2 == 1 then g.xSocket else g.oSocket, row, col).0;
      g' == g.(st := g'.st) && ReachedBy(g'.st, moves)
  {
    var n := |moves| - 1;
    NextParity(n);
    var socket := if |moves| % 2 == 1 then g.xSocket else g.oSocket;
    QuietMove(g, socket, row, col, n == 8);
    ReachedNext(g.st, PlayMove(g, socket, row, col).0.st, moves);
  }

  lemma ReachedNext(st: GameCommonState, st': GameCommonState, moves: seq<nat>)
    requires (forall k :: 0 <= k < |moves| ==> moves[k] < 9) && 0 < |moves| <= 9
    requires ReachedBy(st, moves[..|moves| - 1])
    requires st'.board == Replayed(moves) && st'.turn == Opponent(st.turn)
    requires st'.state == if |moves| == 9 then GameFinished else GameInProgress
    requires st'.resultX == if |moves| == 9 then ResultDraw else st.resultX
    requires st'.resultO == if |moves| == 9 then ResultDraw else st.resultO
    ensures ReachedBy(st', moves)
  {
    NextParity(|moves| - 1);
  }

  lemma NextParity(n: nat)
    ensures (n + 1) % 2 == 0 <==> n % 2 != 0
  {
  }

  lemma CellNumber(k: nat)
    requires k < 9
    ensures k / 3 <= 2 && k % 3 <= 2 && 3 * (k / 3) + k % 3 == k
  {
  }

  /** The last of a series of moves that completes no line. */
  lemma LastMove(moves: seq<nat>)
    requires (forall k :: 0 <= k < |moves| ==> moves[k] < 9) && Distinct(moves) && moves != []
    requires NoLine(Replayed(moves))
    ensures var n, c := |moves| - 1, moves[|moves| - 1];
      && n < 9 && NoLine(Replayed(moves[..n])) && Replayed(moves[..n])[c] == Blank
      && Replayed(moves) == Replayed(moves[..n])[c := if n % 2 == 0 then MarkX else MarkO]
      && Verdict(Replayed(moves)) == (if n == 8 then DrawnGame else Undecided)
  {
    var n := |moves| - 1;
    ReplayedCells(moves[..n]);
    LineSurvives(Replayed(moves[..n]), moves[n], if n % 2 == 0 then MarkX else MarkO);
    AtMostNine(moves);
    QuietVerdict(moves);
  }

  lemma QuietMove(g: Game, socket: int, row: u8, col: u8, full: bool)
    requires row <= 2 && col <= 2 && SeatOf(g, socket) == Some(g.st.turn)
    requires g.st.state == GameInProgress && g.st.board[3 * row + col] == Blank
    requires Verdict(g.st.board[3 * row + col := MarkOf(g.st.turn)]) == if full then DrawnGame else Undecided
    ensures PlayMove(g, socket, row, col).0 ==
      g.(st := g.st.(board := g.st.board[3 * row + col := MarkOf(g.st.turn)], turn := Opponent(g.st.turn),
                     state := if full then GameFinished else GameInProgress,
                     resultX := if full then ResultDraw else g.st.resultX,
                     resultO := if full then ResultDraw else g.st.resultO))
  {
  }

  lemma QuietVerdict(moves: seq<nat>)
    requires (forall k :: 0 <= k < |moves| ==> moves[k] < 9) && Distinct(moves)
    requires NoLine(Replayed(moves))
    ensures Verdict(Replayed(moves)) == if |moves| == 9 then DrawnGame else Undecided
  {
    VerdictMeaning(Replayed(moves));
    ReplayedCount(moves);
    if HasBlank(Replayed(moves)) {
      BlankCount(Replayed(moves));
    } else {
      FullCount(Replayed(moves));
    }
  }

  lemma {:induction false} CountBound(b: seq<Mark>)
    ensures Count(b, MarkX) + Count(b, MarkO) <= |b|
  {
    if b != [] { CountBound(b[1..]); }
  }

  lemma BlankCount(b: Board)
    requires HasBlank(b)
    ensures Count(b, MarkX) + Count(b, MarkO) < 9
  {
    var k :| 0 <= k < 9 && b[k] == Blank;
    PlacedCount(b, k, MarkX, MarkX);
    PlacedCount(b, k, MarkX, MarkO);
    CountBound(b[k := MarkX]);
  }

  /** Placing a mark on a blank cell keeps every line there was. */
  lemma LineSurvives(b: Board, k: nat, m: Mark)
    requires k < 9 && b[k] == Blank && NoLine(b[k := m])
    ensures NoLine(b)
  {
    forall n | n != Blank && HasLine(b, n) ensures HasLine(b[k := m], n) {
      var l :| 0 <= l < 8 && Owns(b, n, l);
      assert Owns(b[k := m], n, l);
    }
  }

  /** Nine moves without a line. */
  const DRAWING_MOVES: seq<nat> := [0, 1, 2, 4, 3, 5, 7, 6, 8]

  /** A game whose owner (socket 7) answered before anyone joined; socket 8 is accepted and the
      two play to a draw. */
  function StaleVoteGame(): Game {
    var g := Calls(NewGame(0, 7, None), [PostGame(7, true), Join(8, None), Decide(true)]);
    Calls(g, Plays(7, 8, DRAWING_MOVES))
  }

  /** In that run the owner has not answered the draw, yet the other player's "no" settles it. */
  lemma StaleVoteSettlesDraw()
    ensures var g := StaleVoteGame();
      && g.st.state == GameFinished && Drawn(g)
      && OnGame(g, PostGame(8, false)).1 == Voted(true)
  {
    var start := NewGame(0, 7, None);
    var ops := [PostGame(7, true), Join(8, None), Decide(true)];
    assert ops[..2][..1][..0] == [] && ops[..2][..1] == [PostGame(7, true)];
    assert ops[..2] == [PostGame(7, true), Join(8, None)];
    assert Calls(start, [PostGame(7, true)]) == start.(xReceived := true, xContinue := true);
    assert Calls(start, ops[..2]).waitingSocket == 8;
    var g := Calls(start, ops);
    DrawnBoard();
    PlayThrough(g, DRAWING_MOVES);
  }

  lemma DrawnBoard()
    ensures NoLine(Replayed(DRAWING_MOVES))
  {
    var moves := DRAWING_MOVES;
    var b := [MarkX, MarkO, MarkX, MarkX, MarkO, MarkO, MarkO, MarkX, MarkX];
    ReplayedMarks(moves);
    assert Replayed(moves) == b by {
      assert Replayed(moves)[moves[0]] == MarkX && Replayed(moves)[moves[1]] == MarkO;
      assert Replayed(moves)[moves[2]] == MarkX && Replayed(moves)[moves[3]] == MarkO;
      assert Replayed(moves)[moves[4]] == MarkX && Replayed(moves)[moves[5]] == MarkO;
      assert Replayed(moves)[moves[6]] == MarkX && Replayed(moves)[moves[7]] == MarkO;
      assert Replayed(moves)[moves[8]] == MarkX;
    }
  }

  lemma {:induction false} ReplayedMarks(moves: seq<nat>)
    requires (forall k :: 0 <= k < |moves| ==> moves[k] < 9) && Distinct(moves)
    ensures forall k :: 0 <= k < |moves| ==>
      Replayed(moves)[moves[k]] == if k % 2 == 0 then MarkX else MarkO
  {
    if moves != [] {
      ReplayedMarks(moves[..|moves| - 1]);
    }
  }
}
