/** The lobby message: from the list of games to what a client decodes. */
module LobbyMessages {
  import opened TrisTypes
  import opened GameRules
  import opened ManagerSpec
  import opened Handlers
  import W = WireFormat
  import S = MessageStream

  function StateCode(s: GameState): u8 {
    match s
    case GameNew => 0
    case GameWaiting => 1
    case GameInProgress => 2
    case GameFinished => 3
  }

  function LobbyEntry(s: Snapshot): W.LobbyGame {
    W.LobbyGame(s.id, StateCode(s.state), CopyName(s.owner), s.connected)
  }

  /** Unused entries are zero. */
  function LobbyEntries(snapshots: seq<Snapshot>): W.TenGames
    requires |snapshots| <= 10
  {
    seq(10, i requires 0 <= i < 10 => if i < |snapshots| then LobbyEntry(snapshots[i]) else W.NO_GAME)
  }

  function LobbyMessage(snapshots: seq<Snapshot>): (m: S.Message)
    requires |snapshots| <= 10
    ensures S.Sendable(m)
  {
    S.Message(W.Code(W.LOBBY_UPDATE), W.Lobby(|snapshots|, LobbyEntries(snapshots)))
  }

  method BuildLobbyMessage(snapshots: array<Snapshot>, count: nat) returns (m: S.Message)
    requires count <= 10 <= snapshots.Length
    ensures m == LobbyMessage(snapshots[..count])
  {
    var games: W.TenGames := W.Repeat(10, W.NO_GAME);
    for i := 0 to count
      invariant forall k :: 0 <= k < i ==> games[k] == LobbyEntry(snapshots[k])
      invariant forall k :: i <= k < 10 ==> games[k] == W.NO_GAME
    {
      games := games[i := LobbyEntry(snapshots[i])];
    }
    assert games == LobbyEntries(snapshots[..count]);
    m := S.Message(12, W.Lobby(count, games));
  }

  /** What a client shows for an open game. */
  function Shown(g: Game): W.LobbyGame { W.LobbyGame(g.id, 1, g.owner, 1) }

  /** The client decodes exactly the first ten joinable games, in list order, with their ids,
      state and owner names, and their number; the rest of the ten entries is zero. */
  lemma LobbySurvivesTheWire(games: seq<Game>, rest: seq<u8>)
    requires NamesCopied(games)
    ensures var open := JoinableOnly(games);
      var n := if |open| < 10 then |open| else 10;
      var (m, left) := S.Parse(S.Frame(LobbyMessage(Lobby(games))) + rest);
      && left == rest && m.Some? && m.value.kind == W.Code(W.LOBBY_UPDATE) && m.value.payload.Lobby?
      && m.value.payload.count == n
      && (forall k :: 0 <= k < n ==> m.value.payload.games[k] == Shown(open[k]))
      && (forall k :: n <= k < 10 ==> m.value.payload.games[k] == W.NO_GAME)
  {
    var m := LobbyMessage(Lobby(games));
    S.ParseFrame(m, rest);
    LobbyIsFirstTen(games);
    var open := JoinableOnly(games);
    forall k | 0 <= k < |Lobby(games)| ensures LobbyEntry(Lobby(games)[k]) == Shown(open[k]) {
      assert open[k] in open;
      JoinableOnlyMembers(games, open[k]);
      CopyNameIdempotent(open[k].owner);
    }
  }
}
