/** The manager's heap structure: a singly linked list of game nodes with head and tail, updated
    in place. Each method is proved against the atomic machine of ManagerSpec. */
module GameList {
  import opened TrisTypes
  import opened GameRules
  import opened GameLife
  import opened ManagerSpec
  import opened CleanupSpec

  class Node {
    var id: u32
    var xSocket: int
    var oSocket: int
    var waitingSocket: int
    var owner: Name
    var waiting: Name
    var st: GameCommonState
    var xReceived: bool
    var oReceived: bool
    var xContinue: bool
    var oContinue: bool
    var next: Node?

    function Value(): Game
      reads this
    {
      Game(id, xSocket, oSocket, waitingSocket, owner, waiting, st, xReceived, oReceived, xContinue, oContinue)
    }

    constructor (id: u32, socket: int, username: Option<seq<u8>>)
      ensures Value() == NewGame(id, socket, username) && next == null
    {
      this.id := id;
      xSocket, oSocket, waitingSocket := socket, NOBODY, NOBODY;
      owner := match username case Some(name) => CopyName(name) case None => NO_NAME;
      waiting := NO_NAME;
      st := FRESH_STATE;
      xReceived, oReceived, xContinue, oContinue := false, false, false, false;
      next := null;
    }

    method Join(socket: int, username: Option<seq<u8>>) returns (reply: Reply)
      modifies this
      ensures (Value(), reply) == JoinGame(old(Value()), socket, username) && next == old(next)
    {
      if st.state != GameWaiting || oSocket != NOBODY || waitingSocket != NOBODY {
        return Failed;
      }
      waitingSocket := socket;
      if username.Some? {
        waiting := CopyName(username.value);
      }
      return Joined;
    }

    method Decide(accepted: bool) returns (reply: Reply)
      modifies this
      ensures (Value(), reply) == DecideJoin(old(Value()), accepted) && next == old(next)
    {
      if waitingSocket == NOBODY {
        return Failed;
      }
      if accepted {
        oSocket := waitingSocket;
        waitingSocket := NOBODY;
        waiting := waiting[0 := 0];
        st := st.(state := GameInProgress);
        return Decided(Some(PlayerO));
      }
      waitingSocket := NOBODY;
      waiting := waiting[0 := 0];
      return Decided(None);
    }

    method Finalize(winner: Outcome)
      modifies this
      ensures Value() == old(Value()).(st := Finalized(old(st), winner)) && next == old(next)
    {
      st := st.(state := if winner == Undecided then st.state else GameFinished);
      if winner == XWins {
        st := st.(resultX := ResultWin, resultO := ResultLoss);
      } else if winner == OWins {
        st := st.(resultX := ResultLoss, resultO := ResultWin);
      } else if winner == DrawnGame {
        st := st.(resultX := ResultDraw, resultO := ResultDraw);
      }
    }

    method Play(socket: int, row: u8, col: u8) returns (reply: Reply)
      modifies this
      ensures (Value(), reply) == PlayMove(old(Value()), socket, row, col) && next == old(next)
    {
      var player: Player;
      if socket == xSocket {
        player := PlayerX;
      } else if socket == oSocket {
        player := PlayerO;
      } else {
        return Failed;
      }
      if st.state != GameInProgress || row > 2 || col > 2 || st.board[3 * row + col] != Blank || st.turn != player {
        return Failed;
      }
      st := st.(board := st.board[3 * row + col := if player == PlayerX then MarkX else MarkO]);
      st := st.(turn := if player == PlayerX then PlayerO else PlayerX);
      var finished, winner := CheckWinner(st.board);
      if finished {
        Finalize(winner);
      }
      return Played(winner);
    }

    /** Frees the seat of a socket; the caller unlinks a node that became vacant. */
    method Leave(socket: int) returns (reply: Reply)
      modifies this
      ensures (Value(), reply) == LeaveSeat(old(Value()), socket) && next == old(next)
    {
      if socket == xSocket {
        xSocket := NOBODY;
      } else if socket == oSocket {
        oSocket := NOBODY;
      } else if socket == waitingSocket {
        waitingSocket := NOBODY;
        waiting := waiting[0 := 0];
      } else {
        return Failed;
      }
      return Left;
    }

    method Reset(state: GameState)
      modifies this
      ensures Value() == old(Value()).(st := Cleared(old(st), state)) && next == old(next)
    {
      for i := 0 to 3
        invariant Value() == old(Value()).(st := st) && next == old(next)
        invariant st == old(st).(board := st.board)
        invariant forall k :: 0 <= k < 3 * i ==> st.board[k] == Blank
      {
        for j := 0 to 3
          invariant Value() == old(Value()).(st := st) && next == old(next)
          invariant st == old(st).(board := st.board)
          invariant forall k :: 0 <= k < 3 * i + j ==> st.board[k] == Blank
        {
          st := st.(board := st.board[3 * i + j := Blank]);
        }
      }
      assert st.board == EMPTY_BOARD;
      st := st.(turn := PlayerX, resultX := ResultNone, resultO := ResultNone, state := state);
    }

    method DrawVote() returns (bothDecided: bool)
      modifies this
      ensures (Value(), bothDecided) == DrawPostGame(old(Value())) && next == old(next)
    {
      bothDecided := xReceived && oReceived;
      if !bothDecided {
        return;
      }
      if xContinue && oContinue {
        Reset(GameInProgress);
      } else if xContinue || oContinue {
        xSocket := if xContinue then xSocket else oSocket;
        oSocket := NOBODY;
        waitingSocket := NOBODY;
        Reset(GameWaiting);
      } else {
        st := st.(state := GameFinished);
      }
      xReceived := false;
      oReceived := false;
    }

    method WinVote(xWon: bool, socket: int, wants: bool) returns (bothDecided: bool)
      modifies this
      ensures (Value(), bothDecided) == WinPostGame(old(Value()), xWon, socket, wants) && next == old(next)
    {
      var winnerSocket := if xWon then xSocket else oSocket;
      if (xWon && socket == oSocket) || (!xWon && socket == xSocket) {
        return false;
      }
      if wants {
        xSocket := winnerSocket;
        oSocket := NOBODY;
        waitingSocket := NOBODY;
        Reset(GameWaiting);
      } else {
        st := st.(state := GameFinished);
      }
      return true;
    }

    method PostGame(socket: int, wants: bool) returns (reply: Reply)
      modifies this
      ensures (Value(), reply) == PostGameVote(old(Value()), socket, wants) && next == old(next)
    {
      if socket != xSocket && socket != oSocket {
        return Failed;
      }
      if socket == xSocket {
        xReceived := true;
        xContinue := wants;
      } else {
        oReceived := true;
        oContinue := wants;
      }
      var both: bool;
      if st.resultX == ResultDraw && st.resultO == ResultDraw {
        both := DrawVote();
      } else {
        both := WinVote(st.resultX == ResultWin, socket, wants);
      }
      return Voted(both);
    }
  }

  ghost function NodeAt(nodes: seq<Node>, i: int): Node? {
    if 0 <= i < |nodes| then nodes[i] else null
  }

  lemma RemovedDistinct<T>(a: seq<T>, i: nat)
    requires i < |a| && Distinct(a)
    ensures Distinct(a[..i] + a[i + 1..])
  {
  }

  lemma SkippedUpdate<T>(a: seq<T>, i: nat, x: T)
    requires i < |a|
    ensures a[i := x][..i] + a[i := x][i + 1..] == a[..i] + a[i + 1..]
  {
  }

  /** The next entry of a buffer that is filled from the front. */
  method Store<T>(buffer: array<T>, count: nat, x: T)
    requires count < buffer.Length
    modifies buffer
    ensures buffer[..count + 1] == old(buffer[..count]) + [x]
  {
    buffer[count] := x;
  }

  class GameManager {
    var head: Node?
    var tail: Node?
    /** `next_game_id`: wraps around at 2^32. */
    var nextId: u32
    /** The nodes in list order, and the games in them. */
    ghost var nodes: seq<Node>
    ghost var games: seq<Game>
    /** Every node allocated so far. */
    ghost var Repr: set<Node>

    /** head, tail and next represent exactly `nodes`: acyclic, and tail is its last node. */
    ghost predicate Valid()
      reads this, nodes
    {
      && Distinct(nodes) && (forall i :: 0 <= i < |nodes| ==> nodes[i] in Repr)
      && head == NodeAt(nodes, 0) && tail == NodeAt(nodes, |nodes| - 1)
      && |games| == |nodes| && (forall i :: 0 <= i < |nodes| ==> games[i] == nodes[i].Value())
      && forall i {:trigger nodes[i].next} :: 0 <= i < |nodes| ==> nodes[i].next == NodeAt(nodes, i + 1)
    }

    /** Writing to one node, except its `next`, changes one game and keeps the list. */
    twostate lemma OneChanged(i: nat)
      requires old(Valid()) && unchanged(`head, `tail, `nodes, `Repr)
      requires i < |nodes| && nodes[i].next == old(nodes[i].next) && games == old(games)[i := nodes[i].Value()]
      requires forall k :: 0 <= k < |nodes| && k != i ==> unchanged(nodes[k])
      ensures Valid()
    {
    }

    constructor ()
      ensures Valid() && games == [] && nextId == 0 && Repr == {}
    {
      head, tail := null, null;
      nextId := 0;
      nodes := [];
      games := [];
      Repr := {};
    }

    method CreateGame(socket: int, username: Option<seq<u8>>) returns (gameId: u32)
      requires Valid()
      modifies this, Repr
      ensures Valid() && fresh(Repr - old(Repr))
      ensures gameId == old(nextId) && nextId == (old(nextId) + 1) % UINT32_LIMIT
      ensures (games, Created(Some(gameId))) == Apply(old(games), Create(socket, username, true), gameId)
    {
      gameId := nextId;
      nextId := (nextId + 1) % UINT32_LIMIT;
      var g := new Node(gameId, socket, username);
      Append(g);
    }

    /** Links a new node at the end, reached through `tail`. */
    method Append(g: Node)
      requires Valid() && g !in Repr && g.next == null
      modifies this, Repr
      ensures Valid() && nodes == old(nodes) + [g] && Repr == old(Repr) + {g} && nextId == old(nextId)
      ensures games == old(games) + [g.Value()]
    {
      if head == null {
        head, tail := g, g;
      } else {
        tail.next := g;
        tail := g;
      }
      games := games + [g.Value()];
      nodes := nodes + [g];
      Repr := Repr + {g};
      Appended(g);
    }

    /** The list after a node was linked behind the last one. */
    twostate lemma Appended(g: Node)
      requires old(Valid()) && g !in old(Repr) && g.next == null
      requires nodes == old(nodes) + [g] && games == old(games) + [g.Value()] && Repr == old(Repr) + {g}
      requires head == (if |old(nodes)| == 0 then g else old(head)) && tail == g
      requires forall k :: 0 <= k < |old(nodes)| - 1 ==> unchanged(old(nodes)[k])
      requires |old(nodes)| > 0 ==>
        var last := old(nodes)[|old(nodes)| - 1]; last.Value() == old(last.Value()) && last.next == g
      ensures Valid()
    {
      forall k | 0 <= k < |nodes|
        ensures nodes[k].next == NodeAt(nodes, k + 1) && games[k] == nodes[k].Value() && nodes[k] in Repr
      {
        if k < |old(nodes)| {
          assert nodes[k] == old(nodes)[k] && old(nodes[k].next) == NodeAt(old(nodes), k + 1);
        }
      }
    }

    /** The search shared by all calls: the first node with the id, if any. */
    method Find(gameId: u32) returns (g: Node?, ghost i: nat)
      requires Valid()
      ensures i == IndexOf(games, gameId) && g == NodeAt(nodes, i)
    {
      g, i := head, 0;
      while g != null && g.id != gameId
        invariant i <= |nodes| && g == NodeAt(nodes, i)
        invariant forall k :: 0 <= k < i ==> nodes[k].id != gameId
        decreases |nodes| - i
      {
        g := g.next;
        i := i + 1;
      }
      IndexOfIs(games, gameId, i);
    }

    method GetOwnerSocket(gameId: u32) returns (socket: int)
      requires Valid()
      ensures (games, Socket(socket)) == Apply(games, On(gameId, OwnerSocket), 0)
    {
      var g, i := Find(gameId);
      if g == null {
        return NOBODY;
      }
      assert games[i := games[i]] == games;
      return g.xSocket;
    }

    method GetWaitingSocket(gameId: u32) returns (reply: Reply)
      requires Valid()
      ensures (games, reply) == Apply(games, On(gameId, WaitingSocket), 0)
    {
      var g, i := Find(gameId);
      if g == null {
        return Failed;
      }
      assert games[i := games[i]] == games;
      return Socket(g.waitingSocket);
    }

    method GetPlayers(gameId: u32) returns (reply: Reply)
      requires Valid()
      ensures (games, reply) == Apply(games, On(gameId, Players), 0)
    {
      var g, i := Find(gameId);
      if g == null {
        return Failed;
      }
      assert games[i := games[i]] == games;
      return PlayersAre(g.xSocket, g.oSocket);
    }

    method GetGameState(gameId: u32) returns (reply: Reply)
      requires Valid()
      ensures (games, reply) == Apply(games, On(gameId, StateOf), 0)
    {
      var g, i := Find(gameId);
      if g == null {
        return Failed;
      }
      assert games[i := games[i]] == games;
      return StateIs(g.st);
    }

    method JoinGame(gameId: u32, socket: int, username: Option<seq<u8>>) returns (reply: Reply)
      requires Valid()
      modifies `games, Repr
      ensures Valid()
      ensures (games, reply) == Apply(old(games), On(gameId, Join(socket, username)), 0)
    {
      var g, i := Find(gameId);
      if g == null {
        return Failed;
      }
      reply := g.Join(socket, username);
      games := games[i := g.Value()];
      OneChanged(i);
      AppliedAt(old(games), gameId, Join(socket, username), 0, i, g.Value(), reply);
    }

    method JoinDecision(gameId: u32, accepted: bool) returns (reply: Reply)
      requires Valid()
      modifies `games, Repr
      ensures Valid()
      ensures (games, reply) == Apply(old(games), On(gameId, Decide(accepted)), 0)
    {
      var g, i := Find(gameId);
      if g == null {
        return Failed;
      }
      reply := g.Decide(accepted);
      games := games[i := g.Value()];
      OneChanged(i);
      AppliedAt(old(games), gameId, Decide(accepted), 0, i, g.Value(), reply);
    }

    method Move(gameId: u32, socket: int, row: u8, col: u8) returns (reply: Reply)
      requires Valid()
      modifies `games, Repr
      ensures Valid()
      ensures (games, reply) == Apply(old(games), On(gameId, Play(socket, row, col)), 0)
    {
      var g, i := Find(gameId);
      if g == null {
        return Failed;
      }
      reply := g.Play(socket, row, col);
      games := games[i := g.Value()];
      OneChanged(i);
      AppliedAt(old(games), gameId, Play(socket, row, col), 0, i, g.Value(), reply);
    }

    method PostGameDecision(gameId: u32, socket: int, wants: bool) returns (reply: Reply)
      requires Valid()
      modifies `games, Repr
      ensures Valid()
      ensures (games, reply) == Apply(old(games), On(gameId, PostGame(socket, wants)), 0)
    {
      var g, i := Find(gameId);
      if g == null {
        return Failed;
      }
      reply := g.PostGame(socket, wants);
      games := games[i := g.Value()];
      OneChanged(i);
      AppliedAt(old(games), gameId, PostGame(socket, wants), 0, i, g.Value(), reply);
    }

    /** The search of a leave, which also keeps the predecessor. */
    method FindWithPrev(gameId: u32) returns (prev: Node?, curr: Node?, ghost i: nat)
      requires Valid()
      ensures i == IndexOf(games, gameId) && curr == NodeAt(nodes, i) && prev == NodeAt(nodes, i - 1)
    {
      prev, curr, i := null, head, 0;
      while curr != null && curr.id != gameId
        invariant i <= |nodes| && curr == NodeAt(nodes, i) && prev == NodeAt(nodes, i - 1)
        invariant forall k :: 0 <= k < i ==> nodes[k].id != gameId
        decreases |nodes| - i
      {
        prev := curr;
        curr := curr.next;
        i := i + 1;
      }
      IndexOfIs(games, gameId, i);
    }

    /** Takes one node out of the list. */
    method Unlink(prev: Node?, curr: Node, ghost i: nat)
      requires Valid() && i < |nodes| && nodes[i] == curr && prev == NodeAt(nodes, i - 1)
      modifies this, if prev == null then {} else {prev}
      ensures Valid() && nextId == old(nextId) && Repr == old(Repr)
      ensures games == old(games)[..i] + old(games)[i + 1..]
    {
      if prev != null {
        prev.next := curr.next;
      } else {
        head := curr.next;
      }
      if tail == curr {
        tail := prev;
      }
      nodes := nodes[..i] + nodes[i + 1..];
      games := games[..i] + games[i + 1..];
      Unlinked(i);
    }

    /** The list after one node was bypassed. */
    twostate lemma Unlinked(i: nat)
      requires old(Valid()) && i < |old(nodes)| && unchanged(`Repr)
      requires nodes == old(nodes)[..i] + old(nodes)[i + 1..] && games == old(games)[..i] + old(games)[i + 1..]
      requires head == (if i == 0 then old(nodes[i].next) else old(head))
      requires tail == (if i == |old(nodes)| - 1 then NodeAt(old(nodes), i - 1) else old(tail))
      requires forall k :: 0 <= k < |old(nodes)| && k != i - 1 ==> unchanged(old(nodes)[k])
      requires i > 0 ==>
        old(nodes)[i - 1].Value() == old(nodes[i - 1].Value()) && old(nodes)[i - 1].next == old(nodes[i].next)
      ensures Valid()
    {
      RemovedDistinct(old(nodes), i);
      forall k | 0 <= k < |nodes|
        ensures nodes[k].next == NodeAt(nodes, k + 1) && games[k] == nodes[k].Value() && nodes[k] in Repr
      {
        var j := if k < i then k else k + 1;
        assert nodes[k] == old(nodes)[j] && games[k] == old(games)[j];
        assert old(nodes[j].next) == NodeAt(old(nodes), j + 1);
      }
    }

    /** Frees a seat of node i and unlinks the node if it became vacant. */
    method LeaveNode(prev: Node?, curr: Node, ghost i: nat, socket: int) returns (reply: Reply)
      requires Valid() && i < |nodes| && nodes[i] == curr && prev == NodeAt(nodes, i - 1)
      modifies this, Repr
      ensures Valid() && nextId == old(nextId) && Repr == old(Repr)
      ensures (games, reply) == ApplyAt(old(games), i, Leave(socket))
    {
      reply := curr.Leave(socket);
      games := games[i := curr.Value()];
      OneChanged(i);
      SkippedUpdate(old(games), i, curr.Value());
      if reply == Left && curr.xSocket == NOBODY && curr.oSocket == NOBODY && curr.waitingSocket == NOBODY {
        Unlink(prev, curr, i);
      }
    }

    /** Removes exactly the node of the game it empties, and no other. */
    method LeaveGame(gameId: u32, socket: int) returns (reply: Reply)
      requires Valid()
      modifies this, Repr
      ensures Valid() && nextId == old(nextId) && Repr == old(Repr)
      ensures (games, reply) == Apply(old(games), On(gameId, Leave(socket)), 0)
    {
      var prev, curr, i := FindWithPrev(gameId);
      if curr == null {
        return Failed;
      }
      reply := LeaveNode(prev, curr, i, socket);
    }

    /** Fills the caller's buffer with the lobby. */
    method ListGames(out: array<Snapshot>) returns (count: nat)
      requires Valid() && out.Length >= 10
      modifies out
      ensures count == |Lobby(games)| && out[..count] == Lobby(games)
    {
      count := 0;
      var g := head;
      ghost var i := 0;
      while g != null && count < 10
        invariant i <= |nodes| && g == NodeAt(nodes, i) && count <= 10
        invariant out[..count] == Lobby(games[..i])
        decreases |nodes| - i
      {
        LobbyStep(games, i);
        assert g.Value() == games[i];
        if g.st.state == GameWaiting && g.oSocket == NOBODY && g.waitingSocket == NOBODY {
          Store(out, count, Snapshot(g.id, g.st.state, CopyName(g.owner), 1));
          count := count + 1;
        }
        g := g.next;
        i := i + 1;
      }
      if g == null {
        assert games[..i] == games;
      } else {
        LobbyFull(games, i);
      }
    }

    /** One node of the scan: its id is stored if the socket owns the game. */
    method CollectNode(current: Node, socket: int, acceptedId: u32, ids: array<u32>, taken: nat, ghost i: nat)
      returns (count: nat)
      requires Valid() && i < |nodes| && current == nodes[i] && taken < CLEANUP_LIMIT == ids.Length
      requires ids[..taken] == OwnedIds(games[..i], socket, acceptedId)
      modifies ids
      ensures count <= CLEANUP_LIMIT && ids[..count] == OwnedIds(games[..i + 1], socket, acceptedId)
    {
      OwnedIdsStep(games, i, socket, acceptedId);
      count := taken;
      if current.xSocket == socket && current.id != acceptedId {
        Store(ids, count, current.id);
        count := count + 1;
      }
    }

    /** The scan of the cleanup: ids of owned games into a buffer of 128. */
    method CollectOwned(socket: int, acceptedId: u32, ids: array<u32>) returns (count: nat)
      requires Valid() && ids.Length == CLEANUP_LIMIT
      modifies ids
      ensures count <= CLEANUP_LIMIT && ids[..count] == OwnedIds(games, socket, acceptedId)
    {
      count := 0;
      var current := head;
      ghost var i := 0;
      while current != null && count < CLEANUP_LIMIT
        invariant i <= |nodes| && current == NodeAt(nodes, i) && count <= CLEANUP_LIMIT
        invariant ids[..count] == OwnedIds(games[..i], socket, acceptedId)
        decreases |nodes| - i
      {
        count := CollectNode(current, socket, acceptedId, ids, count, i);
        current := current.next;
        i := i + 1;
      }
      OwnedIdsScanned(games, i, socket, acceptedId);
    }

    /** Collects up to 128 owned games, then leaves each of them. */
    method CleanupCreatorGames(socket: int, acceptedId: u32)
      requires Valid()
      modifies this, Repr
      ensures Valid() && nextId == old(nextId) && Repr == old(Repr)
      ensures games == LeaveAll(old(games), OwnedIds(old(games), socket, acceptedId), socket)
    {
      var ids := new u32[CLEANUP_LIMIT];
      var count := CollectOwned(socket, acceptedId, ids);
      LeaveEach(ids, count, socket);
    }

    method LeaveEach(ids: array<u32>, count: nat, socket: int)
      requires Valid() && count <= ids.Length
      modifies this, Repr
      ensures Valid() && nextId == old(nextId) && Repr == old(Repr)
      ensures games == LeaveAll(old(games), ids[..count], socket)
    {
      for k := 0 to count
        invariant Valid() && nextId == old(nextId) && Repr == old(Repr)
        invariant games == LeaveAll(old(games), ids[..k], socket)
      {
        assert ids[..k + 1][..k] == ids[..k];
        var _ := LeaveGame(ids[k], socket);
      }
    }
  }
}
