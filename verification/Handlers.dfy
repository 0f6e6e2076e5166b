/** The request handlers as compositions of manager calls and client-table updates, each run
    alone: what a server state becomes, and what every run of requests keeps. */
module Handlers {
  import opened TrisTypes
  import opened GameRules
  import opened GameLife
  import opened ManagerSpec
  import opened CleanupSpec
  import opened ClientTable

  /** The games, the client table, and how many ids have been drawn. */
  datatype World = World(games: seq<Game>, table: Table, created: nat)

  function Call(w: World, id: u32, call: GameOp): (World, Reply) {
    var (games, reply) := Apply(w.games, On(id, call), 0);
    (w.(games := games), reply)
  }

  function Cleanup(w: World, socket: int, spared: u32): World {
    w.(games := LeaveAll(w.games, OwnedIds(w.games, socket, spared), socket))
  }

  function MarkPlaying(w: World, socket: int, playing: bool, id: u32): World {
    w.(table := SetPlaying(w.table, socket, playing, id))
  }

  // ---- the requests ----

  function CreateHandled(w: World, socket: int): World {
    if IsPlaying(w.table, socket) then w
    else
      var id := w.created % UINT32_LIMIT;
      var games := Apply(w.games, Create(socket, Some(NameOf(w.table, socket)), true), id).0;
      MarkPlaying(World(games, w.table, w.created + 1), socket, true, id)
  }

  /** Refused for a client who is playing or owns the game; otherwise a join under his name. */
  function JoinHandled(w: World, socket: int, id: u32): World {
    if IsPlaying(w.table, socket) || Call(w, id, OwnerSocket).1 == Socket(socket) then w
    else Call(w, id, Join(socket, Some(NameOf(w.table, socket)))).0
  }

  /** Whoever answers, an accepted join makes him leave his other games and marks both players. */
  function DecisionHandled(w: World, socket: int, accepted: bool, id: u32): World {
    var (w1, reply) := Call(w, id, Decide(accepted));
    if !reply.Decided? || !accepted then w1
    else Started(Cleanup(w1, socket, id), id)
  }

  /** The players of a game that starts are marked, if the game still exists. */
  function Started(w: World, id: u32): World {
    var players := Call(w, id, Players).1;
    if !players.PlayersAre? then w
    else w.(table := Marked(w.table, players.x, players.o, id))
  }

  function VoteHandled(w: World, socket: int, id: u32, wants: bool): World {
    var (w1, reply) := Call(w, id, PostGame(socket, wants));
    if !reply.Voted? then w1
    else
      var w2 := if wants then w1 else OptOut(w1, socket, id);
      if reply.bothDecided then Settled(w2, socket, id, wants) else w2
  }

  function OptOut(w: World, socket: int, id: u32): World {
    Call(MarkPlaying(w, socket, false, 0), id, Leave(socket)).0
  }

  /** The end of a vote: whoever is left in the game is marked as playing. */
  function Settled(w: World, socket: int, id: u32, wants: bool): World {
    var i := IndexOf(w.games, id);
    if i == |w.games| || w.games[i].st.state == GameNew || w.games[i].st.state == GameFinished then w
    else
      var x := if !wants && w.games[i].xSocket == socket then NOBODY else w.games[i].xSocket;
      var o := if !wants && w.games[i].oSocket == socket then NOBODY else w.games[i].oSocket;
      MarkLeft(w, x, o, id)
  }

  function MarkLeft(w: World, x: int, o: int, id: u32): World {
    if o != NOBODY then MarkPlaying(MarkPlaying(w, x, true, id), o, true, id)
    else if x != NOBODY then MarkPlaying(w, x, true, id)
    else w
  }

  /** The recorded game takes precedence over the id in the request. */
  function LeaveTarget(w: World, socket: int, provided: u32): u32 {
    var current := CurrentGame(w.table, socket);
    if current == NO_GAME_ID then provided else AsU32(current)
  }

  function LeaveHandled(w: World, socket: int, provided: u32): World {
    var w1 := Call(w, LeaveTarget(w, socket, provided), Leave(socket)).0;
    MarkPlaying(Cleanup(w1, socket, 0), socket, false, 0xFFFF_FFFF)
  }

  function ConnectHandled(w: World, socket: int): World {
    w.(table := Added(w.table, socket).0)
  }

  /** The end of a client thread. */
  function DisconnectHandled(w: World, socket: int): World {
    var current := CurrentGame(w.table, socket);
    var w1 := w.(table := Removed(w.table, socket));
    var w2 := if current == NO_GAME_ID then w1 else Call(w1, AsU32(current), Leave(socket)).0;
    Cleanup(w2, socket, 0)
  }

  datatype Event =
    | Connects(socket: int)
    | Creates(socket: int)
    | Joins(socket: int, id: u32)
    | Decides(socket: int, accepted: bool, id: u32)
    | Moves(socket: int, id: u32, row: u8, col: u8)
    | Votes(socket: int, id: u32, wants: bool)
    | Names(socket: int, name: Name)
    | Leaves(socket: int, id: u32)
    | Disconnects(socket: int)

  function Handle(w: World, e: Event): World {
    match e
    case Connects(socket) => ConnectHandled(w, socket)
    case Creates(socket) => CreateHandled(w, socket)
    case Joins(socket, id) => JoinHandled(w, socket, id)
    case Decides(socket, accepted, id) => DecisionHandled(w, socket, accepted, id)
    case Moves(socket, id, row, col) => Call(w, id, Play(socket, row, col)).0
    case Votes(socket, id, wants) => VoteHandled(w, socket, id, wants)
    case Names(socket, name) => w.(table := Renamed(w.table, socket, name))
    case Leaves(socket, id) => LeaveHandled(w, socket, id)
    case Disconnects(socket) => DisconnectHandled(w, socket)
  }

  // ---- what every run keeps ----

  /** Owner names are terminated and padded, so copying them again changes nothing. */
  predicate NamesCopied(games: seq<Game>) {
    forall i :: 0 <= i < |games| ==> CopyName(games[i].owner) == games[i].owner
  }

  predicate IdsBelow(games: seq<Game>, created: nat) {
    forall i :: 0 <= i < |games| ==> games[i].id < created
  }

  predicate GamesOk(games: seq<Game>, created: nat) {
    && AllOk(games) && AllDistinct(games) && NamesCopied(games)
    && (created <= UINT32_LIMIT ==> UniqueIds(games) && IdsBelow(games, created))
  }

  predicate WorldOk(w: World) {
    && GamesOk(w.games, w.created)
    && |w.table| == MAX_CLIENTS && SocketsDistinct(w.table)
  }

  lemma NewNameCopied(id: u32, socket: int, name: seq<u8>)
    ensures var g := NewGame(id, socket, Some(name)); CopyName(g.owner) == g.owner
  {
    CopyNameIdempotent(name);
  }

  lemma CallKeepsGamesOk(games: seq<Game>, created: nat, id: u32, call: GameOp)
    requires GamesOk(games, created) && RealSocket(call)
    requires forall g :: g in games && g.id == id ==> NotOwnGame(g, call)
    ensures GamesOk(Apply(games, On(id, call), 0).0, created)
  {
    var e := Entry(0, On(id, call), 0, Failed);
    assert RealSockets([e]);
    ApplyKeepsOk(games, e);
    ApplyKeepsSeatsDistinct(games, e);
    if created <= UINT32_LIMIT { ApplyKeepsUniqueIds(games, On(id, call), 0); }
    CallKeepsFrame(games, created, id, call);
  }

  /** Names and ids never change; a call may only drop a game. */
  lemma CallKeepsFrame(games: seq<Game>, created: nat, id: u32, call: GameOp)
    ensures NamesCopied(games) ==> NamesCopied(Apply(games, On(id, call), 0).0)
    ensures IdsBelow(games, created) ==> IdsBelow(Apply(games, On(id, call), 0).0, created)
  {
  }

  lemma {:induction false} LeaveAllKeepsGamesOk(games: seq<Game>, created: nat, ids: seq<u32>, socket: int)
    requires GamesOk(games, created) && socket != NOBODY
    ensures GamesOk(LeaveAll(games, ids, socket), created)
  {
    if ids != [] {
      var n := |ids| - 1;
      LeaveAllKeepsGamesOk(games, created, ids[..n], socket);
      CallKeepsGamesOk(LeaveAll(games, ids[..n], socket), created, ids[n], Leave(socket));
    }
  }

  lemma CreateKeepsGamesOk(games: seq<Game>, created: nat, socket: int, name: Name)
    requires GamesOk(games, created) && socket != NOBODY
    ensures GamesOk(games + [NewGame(created % UINT32_LIMIT, socket, Some(name))], created + 1)
  {
    var id := created % UINT32_LIMIT;
    NewGameOk(id, socket, Some(name));
    NewNameCopied(id, socket, name);
  }

  lemma TableKept(w: World, w': World)
    requires WorldOk(w) && w'.games == w.games && w'.created == w.created && SameSockets(w.table, w'.table)
    ensures WorldOk(w')
  {
  }

  lemma CallKeepsWorldOk(w: World, id: u32, call: GameOp)
    requires WorldOk(w) && RealSocket(call) && !call.Join?
    ensures WorldOk(Call(w, id, call).0)
  {
    CallKeepsGamesOk(w.games, w.created, id, call);
  }

  lemma CleanupKeepsWorldOk(w: World, socket: int, spared: u32)
    requires WorldOk(w) && socket != NOBODY
    ensures WorldOk(Cleanup(w, socket, spared))
  {
    LeaveAllKeepsGamesOk(w.games, w.created, OwnedIds(w.games, socket, spared), socket);
  }

  /** The guard of the handler: the join reaches the manager only with a foreign socket. Without
      unique ids it would only speak about the first game of that id, which is the one joined. */
  lemma JoinKeepsWorldOk(w: World, socket: int, id: u32)
    requires WorldOk(w) && socket != NOBODY && w.created <= UINT32_LIMIT
    ensures WorldOk(JoinHandled(w, socket, id))
  {
    var call := Join(socket, Some(NameOf(w.table, socket)));
    if !(IsPlaying(w.table, socket) || Call(w, id, OwnerSocket).1 == Socket(socket)) {
      OnlyGameOfId(w.games, id);
      CallKeepsGamesOk(w.games, w.created, id, call);
    }
  }

  lemma OnlyGameOfId(games: seq<Game>, id: u32)
    requires UniqueIds(games)
    ensures forall g :: g in games && g.id == id ==> IndexOf(games, id) < |games| && g == games[IndexOf(games, id)]
  {
  }

  lemma DecisionKeepsWorldOk(w: World, socket: int, accepted: bool, id: u32)
    requires WorldOk(w) && socket != NOBODY
    ensures WorldOk(DecisionHandled(w, socket, accepted, id))
  {
    var w1 := Call(w, id, Decide(accepted)).0;
    CallKeepsWorldOk(w, id, Decide(accepted));
    var w2 := Cleanup(w1, socket, id);
    CleanupKeepsWorldOk(w1, socket, id);
    forall x, o { TableKept(w2, w2.(table := Marked(w2.table, x, o, id))); }
  }

  lemma OptOutKeepsWorldOk(w: World, socket: int, id: u32)
    requires WorldOk(w) && socket != NOBODY
    ensures WorldOk(OptOut(w, socket, id))
  {
    TableKept(w, MarkPlaying(w, socket, false, 0));
    CallKeepsWorldOk(MarkPlaying(w, socket, false, 0), id, Leave(socket));
  }

  lemma MarksKeepWorldOk(w: World, socket: int, playing: bool, id: u32)
    requires WorldOk(w)
    ensures WorldOk(MarkPlaying(w, socket, playing, id))
  {
    TableKept(w, MarkPlaying(w, socket, playing, id));
  }

  lemma SettledKeepsWorldOk(w: World, socket: int, id: u32, wants: bool)
    requires WorldOk(w)
    ensures WorldOk(Settled(w, socket, id, wants))
  {
    forall s { MarksKeepWorldOk(w, s, true, id); }
    forall s, t { MarksKeepWorldOk(MarkPlaying(w, s, true, id), t, true, id); }
  }

  lemma VoteKeepsWorldOk(w: World, socket: int, id: u32, wants: bool)
    requires WorldOk(w) && socket != NOBODY
    ensures WorldOk(VoteHandled(w, socket, id, wants))
  {
    var w1 := Call(w, id, PostGame(socket, wants)).0;
    CallKeepsWorldOk(w, id, PostGame(socket, wants));
    OptOutKeepsWorldOk(w1, socket, id);
    SettledKeepsWorldOk(if wants then w1 else OptOut(w1, socket, id), socket, id, wants);
  }

  lemma LeaveKeepsWorldOk(w: World, socket: int, provided: u32)
    requires WorldOk(w) && socket != NOBODY
    ensures WorldOk(LeaveHandled(w, socket, provided))
  {
    var target := LeaveTarget(w, socket, provided);
    CallKeepsWorldOk(w, target, Leave(socket));
    var w1 := Call(w, target, Leave(socket)).0;
    CleanupKeepsWorldOk(w1, socket, 0);
    var w2 := Cleanup(w1, socket, 0);
    TableKept(w2, MarkPlaying(w2, socket, false, 0xFFFF_FFFF));
  }

  lemma DisconnectKeepsWorldOk(w: World, socket: int)
    requires WorldOk(w) && socket != NOBODY
    ensures WorldOk(DisconnectHandled(w, socket))
  {
    RemovedMeaning(w.table, socket);
    var current := CurrentGame(w.table, socket);
    var w1 := w.(table := Removed(w.table, socket));
    if current != NO_GAME_ID { CallKeepsWorldOk(w1, AsU32(current), Leave(socket)); }
    CleanupKeepsWorldOk(if current == NO_GAME_ID then w1 else Call(w1, AsU32(current), Leave(socket)).0, socket, 0);
  }

  /** What the operating system guarantees: sockets are real, and a new one is not in use. */
  predicate Sensible(w: World, e: Event) {
    e.socket != NOBODY && (e.Connects? ==> !IsConnected(w.table, e.socket))
  }

  lemma CreateKeepsWorldOk(w: World, socket: int)
    requires WorldOk(w) && socket != NOBODY
    ensures WorldOk(CreateHandled(w, socket)) && CreateHandled(w, socket).created <= w.created + 1
  {
    if !IsPlaying(w.table, socket) {
      var id, name := w.created % UINT32_LIMIT, NameOf(w.table, socket);
      CreateKeepsGamesOk(w.games, w.created, socket, name);
      MarksKeepWorldOk(World(w.games + [NewGame(id, socket, Some(name))], w.table, w.created + 1), socket, true, id);
    }
  }

  lemma ConnectKeepsWorldOk(w: World, socket: int)
    requires WorldOk(w) && !IsConnected(w.table, socket)
    ensures WorldOk(ConnectHandled(w, socket))
  {
    AddedMeaning(w.table, socket);
  }

  lemma RenameKeepsWorldOk(w: World, socket: int, name: Name)
    requires WorldOk(w)
    ensures WorldOk(w.(table := Renamed(w.table, socket, name)))
  {
    TableKept(w, w.(table := Renamed(w.table, socket, name)));
  }

  /** Only a create draws an id. */
  lemma OthersDrawNothing(w: World, e: Event)
    requires !e.Creates?
    ensures Handle(w, e).created == w.created
  {
    match e
    case Decides(socket, accepted, id) => assert DecisionHandled(w, socket, accepted, id).created == w.created;
    case Votes(socket, id, wants) => assert VoteHandled(w, socket, id, wants).created == w.created;
    case Leaves(socket, id) => assert LeaveHandled(w, socket, id).created == w.created;
    case Disconnects(socket) => assert DisconnectHandled(w, socket).created == w.created;
    case _ =>
  }

  lemma HandleKeepsWorldOk(w: World, e: Event)
    requires WorldOk(w) && Sensible(w, e) && w.created <= UINT32_LIMIT
    ensures WorldOk(Handle(w, e)) && Handle(w, e).created <= w.created + 1
  {
    if !e.Creates? { OthersDrawNothing(w, e); }
    match e
    case Connects(socket) => ConnectKeepsWorldOk(w, socket);
    case Creates(socket) => CreateKeepsWorldOk(w, socket);
    case Joins(socket, id) => JoinKeepsWorldOk(w, socket, id);
    case Decides(socket, accepted, id) => DecisionKeepsWorldOk(w, socket, accepted, id);
    case Moves(socket, id, row, col) => CallKeepsWorldOk(w, id, Play(socket, row, col));
    case Votes(socket, id, wants) => VoteKeepsWorldOk(w, socket, id, wants);
    case Names(socket, name) => RenameKeepsWorldOk(w, socket, name);
    case Leaves(socket, id) => LeaveKeepsWorldOk(w, socket, id);
    case Disconnects(socket) => DisconnectKeepsWorldOk(w, socket);
  }

  /** The server state after a series of requests. */
  function Served(w: World, events: seq<Event>): World {
    if events == [] then w
    else Handle(Served(w, events[..|events| - 1]), events[|events| - 1])
  }

  ghost predicate AllSensible(w: World, events: seq<Event>) {
    forall k :: 0 <= k < |events| ==> Sensible(Served(w, events[..k]), events[k])
  }

  /** In every run of requests, started with no games and no clients, every game is well
      formed, no socket has two seats in one game, ids are unique, and every client has one slot. */
  lemma {:induction false} RunKeepsWorldOk(w: World, events: seq<Event>)
    requires w.games == [] && w.created == 0 && |w.table| == MAX_CLIENTS && SocketsDistinct(w.table)
    requires AllSensible(w, events) && |events| <= UINT32_LIMIT
    ensures WorldOk(Served(w, events)) && Served(w, events).created <= |events|
  {
    if events != [] {
      var n := |events| - 1;
      assert AllSensible(w, events[..n]) by {
        assert forall k :: 0 <= k < n ==> events[..n][..k] == events[..k];
      }
      RunKeepsWorldOk(w, events[..n]);
      HandleKeepsWorldOk(Served(w, events[..n]), events[n]);
    }
  }
}
