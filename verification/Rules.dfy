/** One game of the server: its board, its seats, its life cycle and its post-game votes.
    Every function here is the effect of one manager call on the game it found. */
module GameRules {
  import opened TrisTypes

  // ---- board ----

  /** Cell (row, col) of the 3x3 board is element 3 * row + col. */
  type Board = b: seq<Mark> | |b| == 9 witness [Blank, Blank, Blank, Blank, Blank, Blank, Blank, Blank, Blank]

  const EMPTY_BOARD: Board := [Blank, Blank, Blank, Blank, Blank, Blank, Blank, Blank, Blank]

  /** The lines in the order in which the server scans them: row i, column i, ..., diagonals. */
  function Line(n: nat): (l: (nat, nat, nat))
    requires n < 8
    ensures l.0 < 9 && l.1 < 9 && l.2 < 9
  {
    match n
    case 0 => (0, 1, 2)
    case 1 => (0, 3, 6)
    case 2 => (3, 4, 5)
    case 3 => (1, 4, 7)
    case 4 => (6, 7, 8)
    case 5 => (2, 5, 8)
    case 6 => (0, 4, 8)
    case _ => (2, 4, 6)
  }

  predicate Owns(b: Board, m: Mark, n: nat)
    requires n < 8
  {
    var l := Line(n);
    b[l.0] == m && b[l.1] == m && b[l.2] == m
  }

  predicate HasLine(b: Board, m: Mark) {
    exists n :: 0 <= n < 8 && Owns(b, m, n)
  }

  predicate HasBlank(b: Board) {
    exists k :: 0 <= k < 9 && b[k] == Blank
  }

  datatype Outcome = XWins | OWins | DrawnGame | Undecided

  /** The first complete line at or after position n of the scan. */
  function FirstLine(b: Board, n: nat): (m: Mark)
    requires n <= 8
    decreases 8 - n
    ensures m == Blank <==> forall k :: n <= k < 8 ==> !Owns(b, MarkX, k) && !Owns(b, MarkO, k)
    ensures m != Blank ==> exists k :: n <= k < 8 && Owns(b, m, k)
  {
    if n == 8 then Blank
    else if Owns(b, MarkX, n) then MarkX
    else if Owns(b, MarkO, n) then MarkO
    else FirstLine(b, n + 1)
  }

  function Verdict(b: Board): Outcome {
    match FirstLine(b, 0)
    case MarkX => XWins
    case MarkO => OWins
    case Blank => if HasBlank(b) then Undecided else DrawnGame
  }

  predicate FullRow(b: Board, m: Mark, i: nat)
    requires i < 3
  {
    b[3 * i] == m && b[3 * i + 1] == m && b[3 * i + 2] == m
  }

  predicate FullColumn(b: Board, m: Mark, i: nat)
    requires i < 3
  {
    b[i] == m && b[3 + i] == m && b[6 + i] == m
  }

  predicate FullDiagonal(b: Board, m: Mark) {
    b[4] == m && ((b[0] == m && b[8] == m) || (b[2] == m && b[6] == m))
  }

  lemma RowAndColumn(b: Board, m: Mark, i: nat)
    requires i < 3
    ensures Owns(b, m, 2 * i) <==> FullRow(b, m, i)
    ensures Owns(b, m, 2 * i + 1) <==> FullColumn(b, m, i)
  {
    assert Line(2 * i) == (3 * i, 3 * i + 1, 3 * i + 2) && Line(2 * i + 1) == (i, 3 + i, 6 + i);
  }

  /** The eight lines are the rows, the columns and the two diagonals of the 3x3 board. */
  lemma LinesOfBoard(b: Board, m: Mark)
    ensures HasLine(b, m) <==>
      (exists i :: 0 <= i < 3 && FullRow(b, m, i)) || (exists i :: 0 <= i < 3 && FullColumn(b, m, i)) ||
      FullDiagonal(b, m)
  {
    RowAndColumn(b, m, 0);
    RowAndColumn(b, m, 1);
    RowAndColumn(b, m, 2);
    assert FullDiagonal(b, m) <==> Owns(b, m, 6) || Owns(b, m, 7);
    if HasLine(b, m) {
      var n :| 0 <= n < 8 && Owns(b, m, n);
      if n < 6 { RowAndColumn(b, m, n / 2); }
    }
  }

  /** What the verdict means, whatever the order of the scan. */
  lemma VerdictMeaning(b: Board)
    ensures Verdict(b) == XWins ==> HasLine(b, MarkX)
    ensures Verdict(b) == OWins ==> HasLine(b, MarkO)
    ensures Verdict(b) == DrawnGame <==> !HasLine(b, MarkX) && !HasLine(b, MarkO) && !HasBlank(b)
    ensures Verdict(b) == Undecided <==> !HasLine(b, MarkX) && !HasLine(b, MarkO) && HasBlank(b)
    ensures HasLine(b, MarkX) && !HasLine(b, MarkO) ==> Verdict(b) == XWins
    ensures HasLine(b, MarkO) && !HasLine(b, MarkX) ==> Verdict(b) == OWins
  {
  }

  /** The scan of `game_check_winner`: rows and columns in one loop, then the diagonals, then a
      search for a blank cell. */
  method CheckWinner(b: Board) returns (finished: bool, winner: Outcome)
    ensures winner == Verdict(b)
    ensures finished <==> winner != Undecided
  {
    var m := CheckLines(b);
    if m != Blank {
      return true, if m == MarkX then XWins else OWins;
    }
    var blank := FindBlank(b);
    return !blank, if blank then Undecided else DrawnGame;
  }

  /** The mark of the first complete line. */
  method CheckLines(b: Board) returns (m: Mark)
    ensures m == FirstLine(b, 0)
  {
    for i := 0 to 3
      invariant FirstLine(b, 0) == FirstLine(b, 2 * i)
    {
      assert Line(2 * i) == (3 * i, 3 * i + 1, 3 * i + 2) && Line(2 * i + 1) == (i, 3 + i, 6 + i);
      ScanLine(b, 2 * i);
      ScanLine(b, 2 * i + 1);
      if b[3 * i] != Blank && b[3 * i] == b[3 * i + 1] && b[3 * i + 1] == b[3 * i + 2] {
        return b[3 * i];
      }
      if b[i] != Blank && b[i] == b[3 + i] && b[3 + i] == b[6 + i] {
        return b[i];
      }
    }
    ScanLine(b, 6);
    ScanLine(b, 7);
    if b[0] != Blank && b[0] == b[4] && b[4] == b[8] {
      return b[0];
    }
    if b[2] != Blank && b[2] == b[4] && b[4] == b[6] {
      return b[2];
    }
    return Blank;
  }

  /** One line of the scan, as the source tests it. */
  lemma ScanLine(b: Board, n: nat)
    requires n < 8
    ensures var l := Line(n);
      FirstLine(b, n) == if b[l.0] != Blank && b[l.0] == b[l.1] == b[l.2] then b[l.0] else FirstLine(b, n + 1)
  {
  }

  method FindBlank(b: Board) returns (found: bool)
    ensures found == HasBlank(b)
  {
    for i := 0 to 3
      invariant forall k :: 0 <= k < 3 * i ==> b[k] != Blank
    {
      for j := 0 to 3
        invariant forall k :: 0 <= k < 3 * i + j ==> b[k] != Blank
      {
        if b[3 * i + j] == Blank {
          return true;
        }
      }
    }
    return false;
  }

  // ---- one game ----

  datatype GameCommonState = GameCommonState(
    board: Board, turn: Player, state: GameState,
    resultX: GameResult, resultO: GameResult, role: Player)

  datatype Game = Game(
    id: u32, xSocket: int, oSocket: int, waitingSocket: int,
    owner: Name, waiting: Name, st: GameCommonState,
    xReceived: bool, oReceived: bool, xContinue: bool, oContinue: bool)

  const FRESH_STATE: GameCommonState :=
    GameCommonState(EMPTY_BOARD, PlayerX, GameWaiting, ResultNone, ResultNone, PlayerX)

  /** The board cleared for another round; the unused `role` is kept. */
  function Cleared(st: GameCommonState, state: GameState): GameCommonState {
    st.(board := EMPTY_BOARD, turn := PlayerX, resultX := ResultNone, resultO := ResultNone, state := state)
  }

  function NewGame(id: u32, socket: int, owner: Option<seq<u8>>): Game {
    Game(id, socket, NOBODY, NOBODY,
         if owner.Some? then CopyName(owner.value) else NO_NAME, NO_NAME, FRESH_STATE,
         false, false, false, false)
  }

  /** Nobody sits in any seat: the condition under which a leaving player deletes the game. */
  predicate Vacant(g: Game) {
    g.xSocket == NOBODY && g.oSocket == NOBODY && g.waitingSocket == NOBODY
  }

  /** The test made both by the lobby scan and by `join_game`. */
  predicate Joinable(g: Game) {
    g.st.state == GameWaiting && g.oSocket == NOBODY && g.waitingSocket == NOBODY
  }

  /** Calls that name a game. */
  datatype GameOp =
    | OwnerSocket
    | Join(socket: int, name: Option<seq<u8>>)
    | Decide(accepted: bool)
    | Play(socket: int, row: u8, col: u8)
    | Leave(socket: int)
    | Players
    | PostGame(socket: int, wants: bool)
    | StateOf
    | WaitingSocket

  /** What a call hands back: its result and the out-parameters it wrote. */
  datatype Reply =
    | Failed
    | Created(id: Option<u32>)
    | Socket(socket: int)
    | Joined
    | Decided(role: Option<Player>)
    | Played(winner: Outcome)
    | Left
    | Listed(games: seq<Snapshot>)
    | PlayersAre(x: int, o: int)
    | Voted(bothDecided: bool)
    | StateIs(st: GameCommonState)

  datatype Snapshot = Snapshot(id: u32, state: GameState, owner: Name, connected: i32)

  function JoinGame(g: Game, socket: int, name: Option<seq<u8>>): (Game, Reply) {
    if !Joinable(g) then (g, Failed)
    else (g.(waitingSocket := socket,
             waiting := if name.Some? then CopyName(name.value) else g.waiting), Joined)
  }

  function DecideJoin(g: Game, accepted: bool): (Game, Reply) {
    if g.waitingSocket == NOBODY then (g, Failed)
    else
      var g' := g.(waitingSocket := NOBODY, waiting := g.waiting[0 := 0]);
      if accepted then
        (g'.(oSocket := g.waitingSocket, st := g.st.(state := GameInProgress)), Decided(Some(PlayerO)))
      else (g', Decided(None))
  }

  /** `game_finalize` on the state of a game that has an outcome. */
  function Finalized(st: GameCommonState, winner: Outcome): (r: GameCommonState)
    ensures r.board == st.board && r.turn == st.turn
  {
    match winner
    case XWins => st.(state := GameFinished, resultX := ResultWin, resultO := ResultLoss)
    case OWins => st.(state := GameFinished, resultX := ResultLoss, resultO := ResultWin)
    case DrawnGame => st.(state := GameFinished, resultX := ResultDraw, resultO := ResultDraw)
    case Undecided => st
  }

  /** X is looked at first, so a socket in both seats plays as X. */
  function SeatOf(g: Game, socket: int): Option<Player> {
    if socket == g.xSocket then Some(PlayerX) else if socket == g.oSocket then Some(PlayerO) else None
  }

  function MarkOf(p: Player): Mark { if p == PlayerX then MarkX else MarkO }

  function Opponent(p: Player): Player { if p == PlayerX then PlayerO else PlayerX }

  predicate Accepts(g: Game, socket: int, row: u8, col: u8) {
    && SeatOf(g, socket) == Some(g.st.turn)
    && g.st.state == GameInProgress
    && row <= 2 && col <= 2
    && g.st.board[3 * row + col] == Blank
  }

  function PlayMove(g: Game, socket: int, row: u8, col: u8): (Game, Reply) {
    if !Accepts(g, socket, row, col) then (g, Failed)
    else
      var player := g.st.turn;
      var board := g.st.board[3 * row + col := MarkOf(player)];
      var winner := Verdict(board);
      (g.(st := Finalized(g.st.(board := board, turn := Opponent(player)), winner)), Played(winner))
  }

  function LeaveSeat(g: Game, socket: int): (Game, Reply) {
    if socket == g.xSocket then (g.(xSocket := NOBODY), Left)
    else if socket == g.oSocket then (g.(oSocket := NOBODY), Left)
    else if socket == g.waitingSocket then
      (g.(waitingSocket := NOBODY, waiting := g.waiting[0 := 0]), Left)
    else (g, Failed)
  }

  /** The game handed over to one player, who waits for a new opponent. */
  function HandedTo(g: Game, socket: int): Game {
    g.(xSocket := socket, oSocket := NOBODY, waitingSocket := NOBODY, st := Cleared(g.st, GameWaiting))
  }

  function DrawPostGame(g: Game): (Game, bool) {
    if !(g.xReceived && g.oReceived) then (g, false)
    else
      var g' :=
        if g.xContinue && g.oContinue then g.(st := Cleared(g.st, GameInProgress))
        else if g.xContinue || g.oContinue then HandedTo(g, if g.xContinue then g.xSocket else g.oSocket)
        else g.(st := g.st.(state := GameFinished));
      (g'.(xReceived := false, oReceived := false), true)
  }

  function WinPostGame(g: Game, xWon: bool, socket: int, wants: bool): (Game, bool) {
    if (xWon && socket == g.oSocket) || (!xWon && socket == g.xSocket) then (g, false)
    else if wants then (HandedTo(g, if xWon then g.xSocket else g.oSocket), true)
    else (g.(st := g.st.(state := GameFinished)), true)
  }

  predicate Drawn(g: Game) {
    g.st.resultX == ResultDraw && g.st.resultO == ResultDraw
  }

  /** The vote written down, before anything is decided. */
  function Recorded(g: Game, socket: int, wants: bool): Game {
    if socket == g.xSocket then g.(xReceived := true, xContinue := wants)
    else g.(oReceived := true, oContinue := wants)
  }

  function PostGameVote(g: Game, socket: int, wants: bool): (Game, Reply) {
    if SeatOf(g, socket).None? then (g, Failed)
    else
      var v := Recorded(g, socket, wants);
      var (g', both) :=
        if Drawn(g) then DrawPostGame(v)
        else WinPostGame(v, g.st.resultX == ResultWin, socket, wants);
      (g', Voted(both))
  }

  /** The effect of a call on the game it found. */
  function OnGame(g: Game, op: GameOp): (r: (Game, Reply))
    ensures r.0.id == g.id && r.0.owner == g.owner
  {
    match op
    case OwnerSocket => (g, Socket(g.xSocket))
    case Join(socket, name) => JoinGame(g, socket, name)
    case Decide(accepted) => DecideJoin(g, accepted)
    case Play(socket, row, col) => PlayMove(g, socket, row, col)
    case Leave(socket) => LeaveSeat(g, socket)
    case Players => (g, PlayersAre(g.xSocket, g.oSocket))
    case PostGame(socket, wants) => PostGameVote(g, socket, wants)
    case StateOf => (g, StateIs(g.st))
    case WaitingSocket => (g, Socket(g.waitingSocket))
  }

  /** Sockets handed to the manager are real ones. */
  predicate RealSocket(op: GameOp) {
    (op.Join? || op.Play? || op.Leave? || op.PostGame?) ==> op.socket != NOBODY
  }
}
