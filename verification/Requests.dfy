/** What each message does to the state of the server, told by the lists of games and slots. */
module Requests {
  import opened TrisTypes
  import opened GameRules
  import opened GameLife
  import opened GameLaws
  import opened ManagerSpec
  import opened CleanupSpec
  import opened ClientTable
  import opened Handlers
  import opened Departures
  import opened WinVotes
  import W = WireFormat
  import S = MessageStream

  /** The request a message stands for; the rest leaves the state alone. The payload of a leave
      is empty, and the id read from the cleared message is 0. */
  function EventOf(socket: int, m: S.Message): Option<Event> {
    match (W.TypeOf(m.kind), m.payload)
    case (Some(CREATE_GAME), _) => Some(Creates(socket))
    case (Some(JOIN_GAME), JoinRequest(id, _, _)) => Some(Joins(socket, id))
    case (Some(JOIN_DECISION), JoinDecision(id, flag)) => Some(Decides(socket, flag != 0, id))
    case (Some(POST_GAME_OPTIONS), PostGameOptions(id, flag)) => Some(Votes(socket, id, flag != 0))
    case (Some(SET_USERNAME), SetUsername(name)) => Some(Names(socket, name))
    case (Some(MOVE), Move(id, row, col)) => Some(Moves(socket, id, row, col))
    case (Some(LEAVE_GAME), _) => Some(Leaves(socket, 0))
    case _ => None
  }

  function EventsOf(socket: int, ms: seq<S.Message>): seq<Event> {
    if ms == [] then []
    else
      var n := |ms| - 1;
      EventsOf(socket, ms[..n]) + match EventOf(socket, ms[n]) case Some(e) => [e] case None => []
  }

  /** The state after one message of a client. */
  function Received(w: World, socket: int, m: S.Message): World {
    match EventOf(socket, m)
    case Some(e) => Handle(w, e)
    case None => w
  }

  // ---- create ----

  /** A client who plays gets nothing. Any other gets a new open game at the end of the list, with
      the next id, under his name, and is marked as playing it. */
  predicate CreateDone(w: World, w': World, socket: int) {
    var n := |w.games|;
    if IsPlaying(w.table, socket) then w' == w
    else
      && w'.created == w.created + 1
      && |w'.games| == n + 1 && w'.games[..n] == w.games
      && w'.games[n].id == w.created % UINT32_LIMIT
      && OpenFor(w'.games[n], socket) && w'.games[n].owner == NameOf(w.table, socket)
      && !w'.games[n].xReceived && !w'.games[n].oReceived
      && Remarked(w.table, w'.table, socket, true, AsI32(w'.games[n].id))
  }

  lemma CreateLaw(w: World, socket: int)
    requires SocketsDistinct(w.table)
    ensures CreateDone(w, CreateHandled(w, socket), socket)
  {
    var id, name := w.created % UINT32_LIMIT, NameOf(w.table, socket);
    SetPlayingMeaning(w.table, socket, true, id);
    NameIsCopied(w.table, socket);
    NewGameIsOpen(id, socket, name);
    var games := w.games + [NewGame(id, socket, Some(name))];
    assert games[..|w.games|] == w.games;
  }

  lemma NewGameIsOpen(id: u32, socket: int, name: Name)
    requires CopyName(name) == name
    ensures var g := NewGame(id, socket, Some(name));
      OpenFor(g, socket) && g.id == id && g.owner == name && !g.xReceived && !g.oReceived
  {
  }

  lemma NameIsCopied(t: Table, socket: int)
    ensures CopyName(NameOf(t, socket)) == NameOf(t, socket)
  {
    var i := SlotOf(t, socket);
    CopyNameIdempotent(if i == |t| then UNKNOWN else t[i].username);
  }

  /** CREATE_GAME. */
  lemma CreateMessage(w: World, socket: int, m: S.Message)
    requires SocketsDistinct(w.table) && m.kind == W.Code(W.CREATE_GAME)
    ensures CreateDone(w, Received(w, socket, m), socket)
  {
    W.CodeIffType(W.CREATE_GAME, m.kind);
    CreateLaw(w, socket);
  }

  // ---- join ----

  /** A client who does not play takes the waiting seat, under his name, of a waiting game of
      another owner in which it is free, as is the O seat. Nothing else ever happens. */
  predicate JoinDone(w: World, w': World, socket: int, id: u32) {
    var i := IndexOf(w.games, id);
    if !IsPlaying(w.table, socket) && i < |w.games| && w.games[i].xSocket != socket
      && w.games[i].st.state == GameWaiting && w.games[i].oSocket == NOBODY && w.games[i].waitingSocket == NOBODY
    then
      && |w'.games| == |w.games| && w' == w.(games := w.games[i := w'.games[i]])
      && w'.games[i] == w.games[i].(waitingSocket := socket, waiting := NameOf(w.table, socket))
    else w' == w
  }

  lemma JoinLaw(w: World, socket: int, id: u32)
    requires SocketsDistinct(w.table) && socket != NOBODY
    ensures JoinDone(w, JoinHandled(w, socket, id), socket, id)
  {
    NameIsCopied(w.table, socket);
    var i := IndexOf(w.games, id);
    if i < |w.games| {
      JoinTakesFreeSeat(w.games[i], socket, Some(NameOf(w.table, socket)));
      assert w.games[i := w.games[i]] == w.games;
    }
  }

  /** JOIN_GAME. */
  lemma JoinMessage(w: World, socket: int, m: S.Message)
    requires SocketsDistinct(w.table) && socket != NOBODY && m.kind == W.Code(W.JOIN_GAME) && m.payload.JoinRequest?
    ensures JoinDone(w, Received(w, socket, m), socket, m.payload.gameId)
  {
    W.CodeIffType(W.JOIN_GAME, m.kind);
    JoinLaw(w, socket, m.payload.gameId);
  }

  // ---- move ----

  /** A mark in the cell 3 * row + col of the named game, for the client whose turn it is, if the
      game is in progress and the cell blank. No other game, seat or slot changes, and a move that
      does not fit changes nothing. */
  predicate MoveDone(w: World, w': World, socket: int, id: u32, row: u8, col: u8) {
    var i := IndexOf(w.games, id);
    if i < |w.games| && MayMove(w.games[i], socket, row, col) then
      && |w'.games| == |w.games| && w' == w.(games := w.games[i := w'.games[i]])
      && w'.games[i] == w.games[i].(st := w'.games[i].st)
      && w'.games[i].st.board ==
           w.games[i].st.board[3 * row + col := if socket == w.games[i].xSocket then MarkX else MarkO]
      && w'.games[i].st.turn != w.games[i].st.turn
    else w' == w
  }

  lemma MoveLaw(w: World, socket: int, id: u32, row: u8, col: u8)
    requires AllOk(w.games) && AllDistinct(w.games) && socket != NOBODY
    ensures MoveDone(w, Call(w, id, Play(socket, row, col)).0, socket, id, row, col)
  {
    var i := IndexOf(w.games, id);
    if i < |w.games| {
      MoveAcceptedExactly(w.games[i], socket, row, col);
      if OnGame(w.games[i], Play(socket, row, col)).1.Played? { MoveWrites(w.games[i], socket, row, col); }
      assert w.games[i := w.games[i]] == w.games;
    }
  }

  /** MOVE. */
  lemma MoveMessage(w: World, socket: int, m: S.Message)
    requires AllOk(w.games) && AllDistinct(w.games) && socket != NOBODY && m.kind == W.Code(W.MOVE) && m.payload.Move?
    ensures MoveDone(w, Received(w, socket, m), socket, m.payload.gameId, m.payload.row, m.payload.col)
  {
    W.CodeIffType(W.MOVE, m.kind);
    MoveLaw(w, socket, m.payload.gameId, m.payload.row, m.payload.col);
  }

  // ---- decision ----

  /** With nobody waiting a decision changes nothing. */
  lemma IdleDecision(w: World, socket: int, accepted: bool, id: u32)
    requires var i := IndexOf(w.games, id); i < |w.games| ==> w.games[i].waitingSocket == NOBODY
    ensures DecisionHandled(w, socket, accepted, id) == w
  {
    var i := IndexOf(w.games, id);
    if i < |w.games| { assert w.games[i := w.games[i]] == w.games; }
  }

  /** A reject empties the waiting seat and changes nothing else. */
  predicate RejectDone(w: World, w': World, i: nat)
    requires i < |w.games|
  {
    && |w'.games| == |w.games| && w' == w.(games := w.games[i := w'.games[i]])
    && w'.games[i] == w.games[i].(waitingSocket := NOBODY, waiting := w'.games[i].waiting)
    && CLength(w'.games[i].waiting) == 0
  }

  lemma RejectLaw(w: World, socket: int, i: nat)
    requires i < |w.games| && IndexOf(w.games, w.games[i].id) == i && w.games[i].waitingSocket != NOBODY
    ensures RejectDone(w, DecisionHandled(w, socket, false, w.games[i].id), i)
  {
    DecisionAnswers(w.games[i], false);
  }

  /** An accept seats the waiting player as O and starts the game. Whoever sent it loses his other
      games, all games of others stay, and both players are marked as playing. */
  predicate AcceptDone(w: World, w': World, socket: int, i: nat)
    requires i < |w.games|
  {
    var g := w.games[i];
    && w'.created == w.created && UniqueIds(w'.games)
    && (exists k :: 0 <= k < |w'.games| && CLength(w'.games[k].waiting) == 0 &&
          w'.games[k] == g.(oSocket := g.waitingSocket, waitingSocket := NOBODY, waiting := w'.games[k].waiting,
                            st := g.st.(state := GameInProgress)))
    && (forall k :: 0 <= k < |w.games| && k != i && w.games[k].xSocket != socket ==> w.games[k] in w'.games)
    && (OwnedCount(w.games, socket, g.id) <= CLEANUP_LIMIT ==>
          forall k :: 0 <= k < |w'.games| && w'.games[k].id != g.id ==> w'.games[k].xSocket != socket)
    && |w'.table| == |w.table|
    && forall k :: 0 <= k < |w.table| ==>
         w'.table[k] ==
           if InSlot(w.table, k, g.xSocket) || InSlot(w.table, k, g.waitingSocket)
           then w.table[k].(playing := true, currentGame := AsI32(g.id))
           else w.table[k]
  }

  /** The cleanup after an accept does not touch the accepted game, nor those of others. */
  lemma AcceptedIsSpared(games: seq<Game>, socket: int, i: nat)
    requires UniqueIds(games) && i < |games|
    ensures var after := LeaveAll(games, OwnedIds(games, socket, games[i].id), socket);
      && games[i] in after
      && forall k :: 0 <= k < |games| && games[k].xSocket != socket ==> games[k] in after
  {
    var ids := OwnedIds(games, socket, games[i].id);
    CleanupIsExact(games, socket, games[i].id);
    if games[i].id in ids {
      var m :| 0 <= m < |ids| && ids[m] == games[i].id;
      var j := OwnedIdMember(games, socket, games[i].id, m);
    }
    CleanedTo(games, ids, i, games[i]);
    forall k | 0 <= k < |games| && games[k].xSocket != socket
      ensures games[k] in LeaveAll(games, ids, socket)
    {
      CleanupKeepsOthers(games, socket, games[i].id, k);
    }
  }

  /** The game after an accept. */
  lemma AcceptedGame(g: Game) returns (g': Game)
    requires g.waitingSocket != NOBODY
    ensures OnGame(g, Decide(true)) == (g', Decided(Some(PlayerO))) && g'.id == g.id
    ensures CLength(g'.waiting) == 0
    ensures g' == g.(oSocket := g.waitingSocket, waitingSocket := NOBODY, waiting := g'.waiting,
                     st := g.st.(state := GameInProgress))
  {
    DecisionAnswers(g, true);
    g' := OnGame(g, Decide(true)).0;
  }

  lemma StartedMarks(w: World, k: nat)
    requires UniqueIds(w.games) && k < |w.games|
    ensures Started(w, w.games[k].id) ==
      w.(table := Marked(w.table, w.games[k].xSocket, w.games[k].oSocket, w.games[k].id))
  {
    IndexOfIs(w.games, w.games[k].id, k);
    assert w.games[k := w.games[k]] == w.games;
  }

  lemma {:induction false} LeaveAllKeepsUniqueIds(games: seq<Game>, ids: seq<u32>, socket: int)
    requires UniqueIds(games)
    ensures UniqueIds(LeaveAll(games, ids, socket))
  {
    if ids != [] {
      var n := |ids| - 1;
      LeaveAllKeepsUniqueIds(games, ids[..n], socket);
      ApplyKeepsUniqueIds(LeaveAll(games, ids[..n], socket), On(ids[n], Leave(socket)), 0);
    }
  }

  lemma AcceptSteps(w: World, socket: int, i: nat, w2: World, k: nat)
    requires UniqueIds(w.games) && i < |w.games| && w.games[i].waitingSocket != NOBODY
    requires w2 == Cleanup(Call(w, w.games[i].id, Decide(true)).0, socket, w.games[i].id)
    requires UniqueIds(w2.games) && k < |w2.games| && w2.games[k] == OnGame(w.games[i], Decide(true)).0
    ensures DecisionHandled(w, socket, true, w.games[i].id) ==
      w2.(table := Marked(w.table, w.games[i].xSocket, w.games[i].waitingSocket, w.games[i].id))
  {
    var g := w.games[i];
    var g' := AcceptedGame(g);
    IndexOfIs(w.games, g.id, i);
    StartedMarks(w2, k);
  }

  /** The list after an accept and its cleanup, and where the accepted game is in it. */
  lemma AcceptedList(w: World, socket: int, i: nat) returns (w2: World, k: nat)
    requires UniqueIds(w.games) && i < |w.games| && w.games[i].waitingSocket != NOBODY
    ensures w2 == Cleanup(Call(w, w.games[i].id, Decide(true)).0, socket, w.games[i].id)
    ensures UniqueIds(w2.games) && k < |w2.games| && w2.games[k] == OnGame(w.games[i], Decide(true)).0
    ensures forall m :: 0 <= m < |w.games| && m != i && w.games[m].xSocket != socket ==> w.games[m] in w2.games
  {
    var g := w.games[i];
    var g' := AcceptedGame(g);
    IndexOfIs(w.games, g.id, i);
    AppliedAt(w.games, g.id, Decide(true), 0, i, g', Decided(Some(PlayerO)));
    var games1 := w.games[i := g'];
    AcceptedIsSpared(games1, socket, i);
    LeaveAllKeepsUniqueIds(games1, OwnedIds(games1, socket, g.id), socket);
    w2 := Cleanup(Call(w, g.id, Decide(true)).0, socket, g.id);
    k :| 0 <= k < |w2.games| && w2.games[k] == g';
    forall m | 0 <= m < |w.games| && m != i && w.games[m].xSocket != socket ensures w.games[m] in w2.games {
      assert games1[m] == w.games[m];
    }
  }

  lemma AcceptLaw(w: World, socket: int, i: nat)
    requires UniqueIds(w.games) && socket != NOBODY && i < |w.games| && w.games[i].waitingSocket != NOBODY
    ensures AcceptDone(w, DecisionHandled(w, socket, true, w.games[i].id), socket, i)
  {
    var g := w.games[i];
    var g' := AcceptedGame(g);
    var w2, k := AcceptedList(w, socket, i);
    AcceptSteps(w, socket, i, w2, k);
    MarkedMeaning(w.table, g.xSocket, g.waitingSocket, g.id);
    if OwnedCount(w.games, socket, g.id) <= CLEANUP_LIMIT {
      IndexOfIs(w.games, g.id, i);
      AcceptedOwnsOneGame(w, socket, g.id);
    }
  }

  predicate DecisionDone(w: World, w': World, socket: int, accepted: bool, id: u32) {
    var i := IndexOf(w.games, id);
    if i == |w.games| || w.games[i].waitingSocket == NOBODY then w' == w
    else if accepted then AcceptDone(w, w', socket, i)
    else RejectDone(w, w', i)
  }

  lemma DecisionLaw(w: World, socket: int, accepted: bool, id: u32)
    requires UniqueIds(w.games) && socket != NOBODY
    ensures DecisionDone(w, DecisionHandled(w, socket, accepted, id), socket, accepted, id)
  {
    var i := IndexOf(w.games, id);
    if i == |w.games| || w.games[i].waitingSocket == NOBODY {
      IdleDecision(w, socket, accepted, id);
    } else if accepted {
      AcceptLaw(w, socket, i);
    } else {
      RejectLaw(w, socket, i);
    }
  }

  /** JOIN_DECISION: a flag other than 0 accepts, and 0 rejects. */
  lemma DecisionMessage(w: World, socket: int, m: S.Message)
    requires UniqueIds(w.games) && socket != NOBODY && m.kind == W.Code(W.JOIN_DECISION) && m.payload.JoinDecision?
    ensures DecisionDone(w, Received(w, socket, m), socket, m.payload.flag != 0, m.payload.gameId)
  {
    W.CodeIffType(W.JOIN_DECISION, m.kind);
    DecisionLaw(w, socket, m.payload.flag != 0, m.payload.gameId);
  }

  // ---- votes ----

  /** The answer to a won game: see WinVotes for the cases, DrawVotes for those of a drawn one. */
  predicate WonVoteDone(w: World, w': World, socket: int, wants: bool, i: nat)
    requires i < |w.games|
  {
    var g := w.games[i];
    && w'.created == w.created
    && (!wants ==> LeftBehind(w.games, w'.games, i, socket) && Remarked(w.table, w'.table, socket, false, -1))
    && (wants && WinnerIs(g, socket) ==>
          && |w'.games| == |w.games| && w'.games == w.games[i := w'.games[i]]
          && OpenFor(w'.games[i], socket) && Remarked(w.table, w'.table, socket, true, AsI32(g.id)))
    && (wants && LoserIs(g, socket) ==> w' == w.(games := w.games[i := Recorded(g, socket, true)]))
  }

  lemma WonVoteLaw(w: World, socket: int, wants: bool, i: nat)
    requires Won(w, i) && (WinnerIs(w.games[i], socket) || LoserIs(w.games[i], socket))
    ensures WonVoteDone(w, VoteHandled(w, socket, w.games[i].id, wants), socket, wants, i)
  {
    WinnerSitsOnce(w, i, socket);
    if !wants {
      NoAfterWin(w, i, socket);
    } else if WinnerIs(w.games[i], socket) {
      WinnerGoesOn(w, i, socket);
    } else {
      LoserGoesOn(w, i, socket);
    }
  }

  lemma WinnerSitsOnce(w: World, i: nat, socket: int)
    requires Won(w, i)
    ensures !(WinnerIs(w.games[i], socket) && LoserIs(w.games[i], socket))
  {
  }

  /** POST_GAME_OPTIONS: a flag other than 0 is a yes, and 0 a no. */
  lemma PostGameMessage(w: World, socket: int, m: S.Message)
    requires m.kind == W.Code(W.POST_GAME_OPTIONS) && m.payload.PostGameOptions?
    ensures Received(w, socket, m) == VoteHandled(w, socket, m.payload.gameId, m.payload.flag != 0)
  {
    VoteEvent(socket, m);
    HandlesVote(w, socket, m.payload.gameId, m.payload.flag != 0);
  }

  lemma VoteEvent(socket: int, m: S.Message)
    requires m.kind == W.Code(W.POST_GAME_OPTIONS) && m.payload.PostGameOptions?
    ensures EventOf(socket, m) == Some(Votes(socket, m.payload.gameId, m.payload.flag != 0))
  {
    W.CodeIffType(W.POST_GAME_OPTIONS, m.kind);
  }

  lemma HandlesVote(w: World, socket: int, id: u32, wants: bool)
    ensures Handle(w, Votes(socket, id, wants)) == VoteHandled(w, socket, id, wants)
  {
  }

  /** After a win: the winner's yes opens the game for him, and a no of either player costs him
      his seat and his mark. */
  lemma WonVoteMessage(w: World, socket: int, m: S.Message, i: nat)
    requires m.kind == W.Code(W.POST_GAME_OPTIONS) && m.payload.PostGameOptions?
    requires Won(w, i) && w.games[i].id == m.payload.gameId
    requires WinnerIs(w.games[i], socket) || LoserIs(w.games[i], socket)
    ensures WonVoteDone(w, Received(w, socket, m), socket, m.payload.flag != 0, i)
  {
    PostGameMessage(w, socket, m);
    WonVoteLaw(w, socket, m.payload.flag != 0, i);
  }

  // ---- names ----

  /** SET_USERNAME: the name in the slot of the client becomes the one sent, up to its first zero
      byte and at most 32 bytes of it, and nothing else changes. */
  lemma NameMessage(w: World, socket: int, m: S.Message)
    requires SocketsDistinct(w.table) && m.kind == W.Code(W.SET_USERNAME) && m.payload.SetUsername?
    ensures var w' := Received(w, socket, m);
      && w' == w.(table := w'.table) && |w'.table| == |w.table|
      && forall k :: 0 <= k < |w.table| ==>
           if !InSlot(w.table, k, socket) then w'.table[k] == w.table[k]
           else
             && w'.table[k] == w.table[k].(username := w'.table[k].username)
             && forall i :: 0 <= i < 50 ==> w'.table[k].username[i] == NameByte(m.payload.name, i)
  {
    W.CodeIffType(W.SET_USERNAME, m.kind);
    RenamedMeaning(w.table, socket, m.payload.name);
    forall i | 0 <= i < 50 ensures CopyString(m.payload.name, 50)[i] == NameByte(m.payload.name, i) {
      CopyStringBytes(m.payload.name, 50, i);
    }
  }

  /** Byte i of a name in a longer buffer. */
  function NameByte(name: Name, i: nat): u8 {
    if i < 32 && forall j :: 0 <= j <= i ==> name[j] != 0 then name[i] else 0
  }

  // ---- leaves and disconnects ----

  /** The game recorded for a client is the one its slot names, where -1 stands for none, and a
      leave request is about that game if there is one. */
  lemma RecordedMeaning(w: World, k: nat, socket: int, provided: u32)
    requires SocketsDistinct(w.table) && InSlot(w.table, k, socket)
    ensures var current := w.table[k].currentGame;
      && RecordedGame(w.table, socket) == (if current == -1 then None else Some(AsU32(current)))
      && LeaveTarget(w, socket, provided) == if current == -1 then provided else AsU32(current)
  {
    LookupsRead(w.table, k, socket);
  }

  /** What happens to game i when a client leaves the target and then the games it owns: the seat
      in the target is given back, and the game with it if nobody else sits there; a game without
      a seat of the client stays as it is, and so do games it has joined elsewhere and game 0. */
  ghost predicate DepartureAt(games: seq<Game>, games': seq<Game>, i: nat, socket: int, target: Option<u32>)
    requires i < |games|
  {
    if target == Some(games[i].id) && SitsIn(games[i], socket) then
      if LastOccupant(games[i], socket) then forall k :: 0 <= k < |games'| ==> games'[k].id != games[i].id
      else exists k :: 0 <= k < |games'| && Emptied(games[i], games'[k], socket)
    else (games[i].xSocket == socket && games[i].id != 0) || games[i] in games'
  }

  ghost predicate DepartureDone(games: seq<Game>, games': seq<Game>, socket: int, target: Option<u32>) {
    && (forall i :: 0 <= i < |games| ==> DepartureAt(games, games', i, socket, target))
    && (ToCleanUp(games, target, socket) <= CLEANUP_LIMIT ==>
          forall k :: 0 <= k < |games'| && games'[k].xSocket == socket ==> games'[k].id == 0)
  }

  /** A failed leave: the client does not sit in the game. */
  lemma NotSeatedStays(games: seq<Game>, i: nat, socket: int)
    requires UniqueIds(games) && i < |games| && socket != NOBODY && !SitsIn(games[i], socket)
    ensures games[i] in Departed(games, Some(games[i].id), socket)
  {
    IndexOfIs(games, games[i].id, i);
    assert games[i := games[i]] == games;
    CleanupLeavesUnseen(games, socket, i);
  }

  lemma DepartureOfGame(games: seq<Game>, i: nat, socket: int, target: Option<u32>)
    requires UniqueIds(games) && AllDistinct(games) && socket != NOBODY && i < |games|
    ensures DepartureAt(games, Departed(games, target, socket), i, socket, target)
  {
    var after := Departed(games, target, socket);
    if target == Some(games[i].id) {
      if SitsIn(games[i], socket) {
        DepartureLeavesRecorded(games, i, socket);
        LeaveEmptiesSeat(games[i], socket);
        assert Emptied(games[i], OnGame(games[i], Leave(socket)).0, socket);
      } else {
        NotSeatedStays(games, i, socket);
      }
    } else if !OwnedBy(games[i], socket, 0) {
      UnseenGameStays(games, target, socket, i);
    }
  }

  lemma DepartureCleansUp(games: seq<Game>, socket: int, target: Option<u32>)
    requires UniqueIds(games) && AllDistinct(games) && socket != NOBODY
    requires ToCleanUp(games, target, socket) <= CLEANUP_LIMIT
    ensures forall g :: g in Departed(games, target, socket) ==> !OwnedBy(g, socket, 0)
  {
    if target.None? {
      CleanupLeavesNothing(games, socket, 0);
    } else {
      LeaveKeepsDistinct(games, target.value, socket);
      OwnedAfterLeave(games, target.value, socket, 0);
      CleanupLeavesNothing(Apply(games, On(target.value, Leave(socket)), 0).0, socket, 0);
    }
  }

  lemma DepartureLaw(games: seq<Game>, socket: int, target: Option<u32>)
    requires UniqueIds(games) && AllDistinct(games) && socket != NOBODY
    ensures DepartureDone(games, Departed(games, target, socket), socket, target)
  {
    var after := Departed(games, target, socket);
    forall i | 0 <= i < |games| ensures DepartureAt(games, after, i, socket, target) {
      DepartureOfGame(games, i, socket, target);
    }
    if ToCleanUp(games, target, socket) <= CLEANUP_LIMIT {
      DepartureCleansUp(games, socket, target);
      forall k | 0 <= k < |after| ensures !OwnedBy(after[k], socket, 0) {
        assert after[k] in after;
      }
    }
  }

  /** The two parts of a leave request. */
  lemma LeaveParts(w: World, socket: int, provided: u32)
    ensures var w' := LeaveHandled(w, socket, provided);
      && w'.games == Departed(w.games, Some(LeaveTarget(w, socket, provided)), socket)
      && w'.table == SetPlaying(w.table, socket, false, 0xFFFF_FFFF) && w'.created == w.created
  {
  }

  /** LEAVE_GAME: the client leaves the game it is recorded in, or else game 0, and the games it
      owns, and is marked as playing none. */
  lemma LeaveMessage(w: World, socket: int, m: S.Message)
    requires UniqueIds(w.games) && AllDistinct(w.games) && SocketsDistinct(w.table)
    requires socket != NOBODY && m.kind == W.Code(W.LEAVE_GAME)
    ensures var w' := Received(w, socket, m);
      && DepartureDone(w.games, w'.games, socket, Some(LeaveTarget(w, socket, 0)))
      && Remarked(w.table, w'.table, socket, false, -1) && w'.created == w.created
  {
    ReceivesLeave(w, socket, m);
    LeaveParts(w, socket, 0);
    DepartureLaw(w.games, socket, Some(LeaveTarget(w, socket, 0)));
    SetPlayingMeaning(w.table, socket, false, 0xFFFF_FFFF);
  }

  lemma ReceivesLeave(w: World, socket: int, m: S.Message)
    requires m.kind == W.Code(W.LEAVE_GAME)
    ensures Received(w, socket, m) == LeaveHandled(w, socket, 0)
  {
    LeaveEvent(socket, m);
    HandlesLeave(w, socket, 0);
  }

  lemma LeaveEvent(socket: int, m: S.Message)
    requires m.kind == W.Code(W.LEAVE_GAME)
    ensures EventOf(socket, m) == Some(Leaves(socket, 0))
  {
    W.CodeIffType(W.LEAVE_GAME, m.kind);
  }

  lemma HandlesLeave(w: World, socket: int, id: u32)
    ensures Handle(w, Leaves(socket, id)) == LeaveHandled(w, socket, id)
  {
  }

  /** The end of a connection: the slot is free again, and the client leaves the game that the
      slot named, if any, and the games it owns. */
  lemma DisconnectLaw(w: World, socket: int)
    requires UniqueIds(w.games) && AllDistinct(w.games) && SocketsDistinct(w.table) && socket != NOBODY
    ensures var w' := DisconnectHandled(w, socket);
      && DepartureDone(w.games, w'.games, socket, RecordedGame(w.table, socket)) && w'.created == w.created
      && |w'.table| == |w.table|
      && forall k :: 0 <= k < |w.table| ==>
           w'.table[k] == if InSlot(w.table, k, socket)
                          then w.table[k].(active := false, playing := false, currentGame := -1)
                          else w.table[k]
  {
    DepartureLaw(w.games, socket, RecordedGame(w.table, socket));
  }

  // ---- everything else ----

  /** Messages of all other types, known or not, change nothing. */
  lemma OtherMessages(w: World, socket: int, m: S.Message)
    requires m.kind != W.Code(W.CREATE_GAME) && m.kind != W.Code(W.JOIN_GAME) && m.kind != W.Code(W.MOVE)
    requires m.kind != W.Code(W.LEAVE_GAME) && m.kind != W.Code(W.JOIN_DECISION)
    requires m.kind != W.Code(W.POST_GAME_OPTIONS) && m.kind != W.Code(W.SET_USERNAME)
    ensures Received(w, socket, m) == w
  {
    match W.TypeOf(m.kind)
    case Some(t) => W.CodeIffType(t, m.kind);
    case None =>
  }
}
