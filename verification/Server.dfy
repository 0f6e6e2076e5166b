/** The server in memory: game manager and client table, updated in place by the handlers. Each
    method, run alone, does to them what its function in Handlers says. */
module ServerState {
  import opened TrisTypes
  import opened GameRules
  import opened ManagerSpec
  import opened ClientTable
  import opened Handlers
  import opened Requests
  import opened GameList
  import opened LobbyMessages
  import S = MessageStream

  lemma ServedMore(w: World, events: seq<Event>, e: Event)
    ensures Served(w, events + [e]) == Handle(Served(w, events), e)
  {
    assert (events + [e])[..|events|] == events;
  }

  lemma LeaveSteps(w: World, socket: int, provided: u32, left: World)
    requires left == Call(w, LeaveTarget(w, socket, provided), Leave(socket)).0
    ensures Handle(w, Leaves(socket, provided)) == MarkPlaying(Cleanup(left, socket, 0), socket, false, 0xFFFF_FFFF)
  {
  }

  lemma DecisionSteps(w: World, socket: int, accepted: bool, id: u32)
    ensures var (decided, reply) := Call(w, id, Decide(accepted));
      && (reply.Failed? || reply.Decided?)
      && Handle(w, Decides(socket, accepted, id)) ==
           if reply.Failed? || !accepted then decided else Started(Cleanup(decided, socket, id), id)
  {
  }

  lemma DisconnectSteps(w: World, socket: int)
    ensures var current := CurrentGame(w.table, socket);
      var w1 := w.(table := Removed(w.table, socket));
      Handle(w, Disconnects(socket)) ==
        Cleanup(if current == NO_GAME_ID then w1 else Call(w1, AsU32(current), Leave(socket)).0, socket, 0)
  {
  }

  lemma VoteSteps(w: World, socket: int, id: u32, wants: bool)
    ensures var (voted, reply) := Call(w, id, PostGame(socket, wants));
      && (reply.Failed? || reply.Voted?)
      && var left := if wants then voted else OptOut(voted, socket, id);
      Handle(w, Votes(socket, id, wants)) ==
        if reply.Failed? then voted else if reply.bothDecided then Settled(left, socket, id, wants) else left
  {
  }

  /** The two lookups of the handler, and what follows from their answers. */
  lemma SettleSteps(w: World, socket: int, id: u32, wants: bool)
    ensures var state, players := Call(w, id, StateOf).1, Call(w, id, Players).1;
      if state.Failed? then Settled(w, socket, id, wants) == w
      else
        && state.StateIs? && players.PlayersAre?
        && Settled(w, socket, id, wants) ==
             if state.st.state == GameNew || state.st.state == GameFinished then w
             else
               MarkLeft(w, if !wants && players.x == socket then NOBODY else players.x,
                        if !wants && players.o == socket then NOBODY else players.o, id)
  {
  }

  class Server {
    const manager: GameManager
    const clients: Clients
    /** The abstract state. */
    ghost var world: World

    ghost predicate Valid()
      reads this, manager, manager.nodes, clients, clients.slots
    {
      && manager.Valid() && clients.Valid()
      && world.games == manager.games && world.table == clients.Table()
      && manager.nextId == world.created % UINT32_LIMIT
    }

    constructor ()
      ensures Valid() && fresh(manager) && fresh(manager.Repr) && fresh(clients) && fresh(clients.slots)
      ensures world.games == [] && world.created == 0 && ActiveCount(world.table) == 0
    {
      manager := new GameManager();
      clients := new Clients();
      new;
      world := World([], clients.Table(), 0);
    }

    // ---- single steps ----

    method CreateGame(socket: int, name: Name) returns (id: u32)
      requires Valid()
      modifies `world, manager, manager.Repr
      ensures Valid()
      ensures fresh(manager.Repr - old(manager.Repr))
      ensures id == old(world.created) % UINT32_LIMIT
      ensures world ==
        World(Apply(old(world.games), Create(socket, Some(name), true), id).0, old(world.table), old(world.created) + 1)
    {
      id := manager.CreateGame(socket, Some(name));
      NextId(world.created);
      world := World(manager.games, world.table, world.created + 1);
    }

    method JoinGame(id: u32, socket: int, name: Name) returns (reply: Reply)
      requires Valid()
      modifies `world, manager, manager.Repr
      ensures Valid()
      ensures manager.Repr == old(manager.Repr)
      ensures (world, reply) == Call(old(world), id, Join(socket, Some(name)))
    {
      reply := manager.JoinGame(id, socket, Some(name));
      world := world.(games := manager.games);
    }

    method JoinDecision(id: u32, accepted: bool) returns (reply: Reply)
      requires Valid()
      modifies `world, manager, manager.Repr
      ensures Valid()
      ensures manager.Repr == old(manager.Repr)
      ensures (world, reply) == Call(old(world), id, Decide(accepted))
    {
      reply := manager.JoinDecision(id, accepted);
      world := world.(games := manager.games);
    }

    method Move(id: u32, socket: int, row: u8, col: u8) returns (reply: Reply)
      requires Valid()
      modifies `world, manager, manager.Repr
      ensures Valid()
      ensures manager.Repr == old(manager.Repr)
      ensures (world, reply) == Call(old(world), id, Play(socket, row, col))
    {
      reply := manager.Move(id, socket, row, col);
      world := world.(games := manager.games);
    }

    method PostGameDecision(id: u32, socket: int, wants: bool) returns (reply: Reply)
      requires Valid()
      modifies `world, manager, manager.Repr
      ensures Valid()
      ensures manager.Repr == old(manager.Repr)
      ensures (world, reply) == Call(old(world), id, PostGame(socket, wants))
    {
      reply := manager.PostGameDecision(id, socket, wants);
      world := world.(games := manager.games);
    }

    method LeaveGame(id: u32, socket: int) returns (reply: Reply)
      requires Valid()
      modifies `world, manager, manager.Repr
      ensures Valid()
      ensures manager.Repr == old(manager.Repr)
      ensures (world, reply) == Call(old(world), id, Leave(socket))
    {
      reply := manager.LeaveGame(id, socket);
      world := world.(games := manager.games);
    }

    method CleanupCreatorGames(socket: int, spared: u32)
      requires Valid()
      modifies `world, manager, manager.Repr
      ensures Valid()
      ensures manager.Repr == old(manager.Repr)
      ensures world == Cleanup(old(world), socket, spared)
    {
      manager.CleanupCreatorGames(socket, spared);
      world := world.(games := manager.games);
    }

    method SetPlaying(socket: int, playing: bool, id: u32)
      requires Valid()
      modifies `world, clients.slots
      ensures Valid()
      ensures world == MarkPlaying(old(world), socket, playing, id)
    {
      clients.ClientSetPlaying(socket, playing, id);
      world := world.(table := clients.Table());
    }

    method MarkPlayers(x: int, o: int, id: u32)
      requires Valid()
      modifies `world, clients.slots
      ensures Valid()
      ensures world == old(world).(table := Marked(old(world.table), x, o, id))
    {
      clients.MarkPlayers(x, o, id);
      world := world.(table := clients.Table());
    }

    // ---- the handlers ----

    method HandleCreateGame(socket: int)
      requires Valid()
      modifies `world, manager, manager.Repr, clients.slots
      ensures Valid()
      ensures fresh(manager.Repr - old(manager.Repr))
      ensures world == Handle(old(world), Creates(socket))
    {
      var playing := clients.ClientIsPlaying(socket);
      if playing {
        return;
      }
      var username := clients.FindUsername(socket);
      var newGameId := CreateGame(socket, username);
      SetPlayingTwice(world.table, socket, true, newGameId, true, newGameId);
      SetPlaying(socket, true, newGameId);
      SetPlaying(socket, true, newGameId);
    }

    method HandleJoinRequest(socket: int, id: u32)
      requires Valid()
      modifies `world, manager, manager.Repr
      ensures Valid()
      ensures manager.Repr == old(manager.Repr)
      ensures world == Handle(old(world), Joins(socket, id))
    {
      var playing := clients.ClientIsPlaying(socket);
      if playing {
        return;
      }
      var owner := manager.GetOwnerSocket(id);
      if owner == socket {
        return;
      }
      var username := clients.FindUsername(socket);
      var _ := JoinGame(id, socket, username);
    }

    method HandleJoinDecision(socket: int, accepted: bool, id: u32)
      requires Valid()
      modifies `world, manager, manager.Repr, clients.slots
      ensures Valid()
      ensures manager.Repr == old(manager.Repr)
      ensures world == Handle(old(world), Decides(socket, accepted, id))
    {
      var reply := JoinDecision(id, accepted);
      DecisionSteps(old(world), socket, accepted, id);
      if reply.Failed? || !accepted {
        return;
      }
      CleanupCreatorGames(socket, id);
      StartGame(id);
    }

    /** The part of the join-decision handler that marks the players of the accepted game. */
    method StartGame(id: u32)
      requires Valid()
      modifies `world, clients.slots
      ensures Valid()
      ensures world == Started(old(world), id)
    {
      var players := manager.GetPlayers(id);
      if players.Failed? {
        return;
      }
      var state := manager.GetGameState(id);
      MarkedAbsorbs(world.table, players.x, players.o, id);
      if state.StateIs? {
        SetPlaying(players.x, true, id);
        SetPlaying(players.o, true, id);
      }
      MarkPlayers(players.x, players.o, id);
    }

    method HandlePostGameDecision(socket: int, id: u32, wants: bool)
      requires Valid()
      modifies `world, manager, manager.Repr, clients.slots
      ensures Valid()
      ensures manager.Repr == old(manager.Repr)
      ensures world == Handle(old(world), Votes(socket, id, wants))
    {
      var reply := PostGameDecision(id, socket, wants);
      VoteSteps(old(world), socket, id, wants);
      if reply.Failed? {
        return;
      }
      AfterVote(socket, id, wants, reply.bothDecided);
    }

    /** The part of the post-game handler that follows a recorded vote. */
    method AfterVote(socket: int, id: u32, wants: bool, bothDecided: bool)
      requires Valid()
      modifies `world, manager, manager.Repr, clients.slots
      ensures Valid()
      ensures manager.Repr == old(manager.Repr)
      ensures var left := if wants then old(world) else OptOut(old(world), socket, id);
        world == if bothDecided then Settled(left, socket, id, wants) else left
    {
      if !wants {
        SetPlaying(socket, false, 0);
        var _ := LeaveGame(id, socket);
      }
      if bothDecided {
        Settle(socket, id, wants);
      }
    }

    /** The part of the post-game handler that follows a decision. */
    method Settle(socket: int, id: u32, wants: bool)
      requires Valid()
      modifies `world, clients.slots
      ensures Valid()
      ensures world == Settled(old(world), socket, id, wants)
    {
      SettleSteps(world, socket, id, wants);
      var state := manager.GetGameState(id);
      if state.Failed? {
        return;
      }
      if state.st.state == GameWaiting || state.st.state == GameInProgress {
        var players := manager.GetPlayers(id);
        if players.PlayersAre? {
          var x, o := players.x, players.o;
          if !wants {
            if x == socket { x := NOBODY; }
            if o == socket { o := NOBODY; }
          }
          MarkRemaining(x, o, id);
        }
      }
    }

    method MarkRemaining(x: int, o: int, id: u32)
      requires Valid()
      modifies `world, clients.slots
      ensures Valid()
      ensures world == MarkLeft(old(world), x, o, id)
    {
      if o == NOBODY {
        if x != NOBODY {
          SetPlaying(x, true, id);
        }
      } else {
        SetPlaying(x, true, id);
        SetPlaying(o, true, id);
      }
    }

    method HandleLeaveGame(socket: int, provided: u32)
      requires Valid()
      modifies `world, manager, manager.Repr, clients.slots
      ensures Valid()
      ensures manager.Repr == old(manager.Repr)
      ensures world == Handle(old(world), Leaves(socket, provided))
    {
      var target := provided;
      var current := clients.GetCurrentGame(socket);
      if current != NO_GAME_ID {
        target := AsU32(current);
      }
      var _ := LeaveGame(target, socket);
      ghost var left := world;
      CleanupCreatorGames(socket, 0);
      SetPlaying(socket, false, 0xFFFF_FFFF);
      LeaveSteps(old(world), socket, provided, left);
    }

    method HandleSetUsername(socket: int, name: Name)
      requires Valid()
      modifies `world, clients.slots
      ensures Valid()
      ensures world == Handle(old(world), Names(socket, name))
    {
      clients.SetUsername(socket, name);
      world := world.(table := clients.Table());
    }

    /** Sends the lobby to one client. */
    method HandleListGames(connection: S.Socket) returns (ok: bool)
      requires Valid()
      modifies connection
      ensures Valid() && world == old(world)
      ensures ok <==> connection.failures == old(connection.failures)
      ensures ok ==> connection.outgoing == old(connection.outgoing) + S.Frame(LobbyMessage(Lobby(world.games)))
    {
      var snapshots := new Snapshot[10](_ => Snapshot(0, GameNew, NO_NAME, 0));
      var count := manager.ListGames(snapshots);
      var response := BuildLobbyMessage(snapshots, count);
      ok := S.SendMessage(connection, response);
    }

    method Connect(socket: int) returns (r: Option<nat>)
      requires Valid()
      modifies `world, clients, clients.slots
      ensures Valid()
      ensures world == Handle(old(world), Connects(socket)) && r == Added(old(world.table), socket).1
    {
      r := clients.AddClient(socket);
      world := world.(table := clients.Table());
    }

    /** The end of a client thread. */
    method Disconnect(socket: int)
      requires Valid()
      modifies `world, manager, manager.Repr, clients, clients.slots
      ensures Valid()
      ensures manager.Repr == old(manager.Repr)
      ensures world == Handle(old(world), Disconnects(socket))
    {
      DisconnectSteps(world, socket);
      var gameId := clients.GetCurrentGame(socket);
      clients.RemoveClient(socket);
      world := world.(table := clients.Table());
      if gameId != NO_GAME_ID {
        var _ := LeaveGame(AsU32(gameId), socket);
      }
      CleanupCreatorGames(socket, 0);
    }

    method HandleEvent(e: Event)
      requires Valid()
      modifies `world, manager, manager.Repr, clients, clients.slots
      ensures Valid() && fresh(manager.Repr - old(manager.Repr))
      ensures world == Handle(old(world), e)
    {
      match e {
        case Creates(socket) => HandleCreateGame(socket);
        case Joins(socket, id) => HandleJoinRequest(socket, id);
        case Decides(socket, accepted, id) => HandleJoinDecision(socket, accepted, id);
        case Moves(socket, id, row, col) => var _ := Move(id, socket, row, col);
        case Votes(socket, id, wants) => HandlePostGameDecision(socket, id, wants);
        case Names(socket, name) => HandleSetUsername(socket, name);
        case Leaves(socket, id) => HandleLeaveGame(socket, id);
        case Connects(socket) => var _ := Connect(socket);
        case Disconnects(socket) => Disconnect(socket);
      }
    }

    /** The dispatch of `handle_message`, as far as it changes the state. */
    method HandleMessage(socket: int, m: S.Message)
      requires Valid()
      modifies `world, manager, manager.Repr, clients, clients.slots
      ensures Valid() && fresh(manager.Repr - old(manager.Repr))
      ensures world == Received(old(world), socket, m)
    {
      match EventOf(socket, m) {
        case Some(e) => HandleEvent(e);
        case None =>
      }
    }

    method ServeOne(socket: int, m: S.Message, ghost start: World, ghost handled: seq<S.Message>)
      requires Valid() && world == Served(start, [Connects(socket)] + EventsOf(socket, handled))
      modifies `world, manager, manager.Repr, clients, clients.slots
      ensures Valid() && fresh(manager.Repr - old(manager.Repr))
      ensures world == Served(start, [Connects(socket)] + EventsOf(socket, handled + [m]))
    {
      ServedNext(start, socket, handled, m);
      HandleMessage(socket, m);
    }

    /** The message loop of a client thread. */
    method ServeMessages(socket: int, connection: S.Socket, ghost start: World) returns (ghost handled: seq<S.Message>)
      requires Valid() && world == Served(start, [Connects(socket)] + EventsOf(socket, []))
      modifies `world, manager, manager.Repr, clients, clients.slots, connection
      ensures Valid() && fresh(manager.Repr - old(manager.Repr))
      ensures world == Served(start, [Connects(socket)] + EventsOf(socket, handled))
      ensures handled <= S.ParseAll(old(connection.incoming))
      ensures connection.failures == old(connection.failures) ==> handled == S.ParseAll(old(connection.incoming))
    {
      ghost var all := S.ParseAll(connection.incoming);
      handled := [];
      while true
        invariant Valid() && world == Served(start, [Connects(socket)] + EventsOf(socket, handled))
        invariant fresh(manager.Repr - old(manager.Repr))
        invariant handled + S.ParseAll(connection.incoming) == all
        invariant connection.failures == old(connection.failures)
        decreases |connection.incoming|
      {
        var r := S.ReceiveNext(connection, handled, all);
        if r.None? {
          return;
        }
        ServeOne(socket, r.value, start, handled);
        handled := handled + [r.value];
      }
    }

    /** A client thread that runs alone, from connection to disconnection: whatever chunks its
        bytes arrive in, the state ends up as the requests in them say, in order. */
    method HandleClient(socket: int, connection: S.Socket) returns (served: bool, ghost handled: seq<S.Message>)
      requires Valid()
      modifies `world, manager, manager.Repr, clients, clients.slots, connection
      ensures Valid()
      ensures served <==> Added(old(world.table), socket).1.Some?
      ensures !served ==> world == old(world)
      ensures served ==> world == Served(old(world), ThreadEvents(socket, handled))
      ensures served ==> handled <= S.ParseAll(old(connection.incoming))
      ensures served && connection.failures == old(connection.failures) ==>
        handled == S.ParseAll(old(connection.incoming))
    {
      ghost var start := world;
      var slot := Connect(socket);
      if slot.None? {
        return false, [];
      }
      ServedOne(start, Connects(socket));
      handled := ServeMessages(socket, connection, start);
      ServedMore(start, [Connects(socket)] + EventsOf(socket, handled), Disconnects(socket));
      Disconnect(socket);
      served := true;
    }
  }

  /** What a client thread does to the state that handled the given messages. */
  function ThreadEvents(socket: int, ms: seq<S.Message>): seq<Event> {
    [Connects(socket)] + EventsOf(socket, ms) + [Disconnects(socket)]
  }

  lemma ServedOne(w: World, e: Event)
    ensures Served(w, [e] + EventsOf(e.socket, [])) == Handle(w, e)
  {
    assert [e] + EventsOf(e.socket, []) == [] + [e];
    ServedMore(w, [], e);
  }

  /** One more message of a client thread is received in the state its earlier ones have led to. */
  lemma ServedNext(w: World, socket: int, ms: seq<S.Message>, m: S.Message)
    ensures var before := Served(w, [Connects(socket)] + EventsOf(socket, ms));
      Served(w, [Connects(socket)] + EventsOf(socket, ms + [m])) ==
        Received(before, socket, m)
  {
    var events := EventsOf(socket, ms);
    assert (ms + [m])[..|ms|] == ms;
    match EventOf(socket, m)
    case Some(e) =>
      assert [Connects(socket)] + (events + [e]) == [Connects(socket)] + events + [e];
      ServedMore(w, [Connects(socket)] + events, e);
    case None => assert events + [] == events;
  }

  lemma NextId(created: nat)
    ensures (created + 1) % UINT32_LIMIT == (created % UINT32_LIMIT + 1) % UINT32_LIMIT
  {
  }
}
