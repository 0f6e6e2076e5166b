/** The byte format of the twelve payloads and the message header. */
module WireFormat {
  import opened TrisTypes

  // ---- integers ----

  /** Two bytes as a number, the more significant one first. */
  function U16(hi: int, lo: int): int { hi * 0x100 + lo }

  /** The value of four bytes in network order, from position i. */
  function U32At(b: seq<u8>, i: nat): u32
    requires i + 4 <= |b|
  {
    U16(b[i], b[i + 1]) * 0x1_0000 + U16(b[i + 2], b[i + 3])
  }

  function TwoBytes(v: int): (b: seq<u8>)
    requires 0 <= v < 0x1_0000
    ensures |b| == 2 && U16(b[0], b[1]) == v
  {
    [v / 0x100, v % 0x100]
  }

  /** `htonl`, byte by byte. */
  function NetworkOrder(v: u32): (b: seq<u8>)
    ensures |b| == 4 && U32At(b, 0) == v
  {
    TwoBytes(v / 0x1_0000) + TwoBytes(v % 0x1_0000)
  }

  lemma U32Exists(v: u32)
    ensures exists b: seq<u8> :: |b| == 4 && U32At(b, 0) == v
  {
    assert U32At(NetworkOrder(v), 0) == v;
  }

  /** The four bytes whose value is v. */
  ghost function U32Bytes(v: u32): (b: seq<u8>)
    ensures |b| == 4 && U32At(b, 0) == v
  {
    U32Exists(v);
    var b: seq<u8> :| |b| == 4 && U32At(b, 0) == v;
    b
  }

  /** There is only one way to write a value in four bytes. */
  lemma U32Unique(b: seq<u8>, c: seq<u8>)
    requires |b| == |c| == 4 && U32At(b, 0) == U32At(c, 0)
    ensures b == c
  {
    var b1, b2, c1, c2 := U16(b[0], b[1]), U16(b[2], b[3]), U16(c[0], c[1]), U16(c[2], c[3]);
    assert b1 == c1 && b2 == c2;
  }

  lemma U32BytesOf(b: seq<u8>, i: nat)
    requires i + 4 <= |b|
    ensures U32Bytes(U32At(b, i)) == b[i..i + 4]
  {
    U32Unique(U32Bytes(U32At(b, i)), b[i..i + 4]);
  }

  // ---- sequences of equally long pieces ----

  function Flatten(cs: seq<seq<u8>>): seq<u8> {
    if cs == [] then [] else Flatten(cs[..|cs| - 1]) + cs[|cs| - 1]
  }

  predicate AllLong(cs: seq<seq<u8>>, k: nat) {
    forall i :: 0 <= i < |cs| ==> |cs[i]| == k
  }

  lemma {:induction false} FlattenLength(cs: seq<seq<u8>>, k: nat)
    requires AllLong(cs, k)
    ensures |Flatten(cs)| == k * |cs|
  {
    if cs != [] {
      FlattenLength(cs[..|cs| - 1], k);
      OneMore(k, |cs| - 1);
    }
  }

  lemma OneMore(k: nat, n: nat)
    ensures k * (n + 1) == k * n + k
  {
  }

  lemma Scaled(k: nat, i: nat, n: nat)
    requires i < n
    ensures 0 <= k * i && k * i + k <= k * n
  {
    assert k * (n - i - 1) >= 0;
    assert k * n == k * i + k + k * (n - i - 1);
  }

  /** The n pieces of length k that make up b. */
  function Pieces(b: seq<u8>, k: nat, n: nat): (cs: seq<seq<u8>>)
    requires |b| == k * n
    ensures |cs| == n && AllLong(cs, k)
  {
    if n == 0 then []
    else
      Scaled(k, n - 1, n);
      Pieces(b[..k * (n - 1)], k, n - 1) + [b[k * (n - 1)..]]
  }

  lemma {:induction false} FlattenPieces(b: seq<u8>, k: nat, n: nat)
    requires |b| == k * n
    ensures Flatten(Pieces(b, k, n)) == b
  {
    if n > 0 {
      Scaled(k, n - 1, n);
      FlattenPieces(b[..k * (n - 1)], k, n - 1);
      var cs := Pieces(b, k, n);
      assert cs[..n - 1] == Pieces(b[..k * (n - 1)], k, n - 1);
    }
  }

  lemma {:induction false} PiecesFlatten(cs: seq<seq<u8>>, k: nat)
    requires AllLong(cs, k)
    ensures |Flatten(cs)| == k * |cs| && Pieces(Flatten(cs), k, |cs|) == cs
  {
    FlattenLength(cs, k);
    if cs != [] {
      var n := |cs| - 1;
      FlattenLength(cs[..n], k);
      PiecesFlatten(cs[..n], k);
      assert Flatten(cs)[..k * n] == Flatten(cs[..n]);
    }
  }

  // ---- payloads ----

  type Text64 = s: seq<u8> | |s| == 64 witness Zeros(64)
  type Text128 = s: seq<u8> | |s| == 128 witness Zeros(128)
  type NineBytes = s: seq<u8> | |s| == 9 witness Zeros(9)
  type TenBytes = s: seq<u8> | |s| == 10 witness Zeros(10)

  function Repeat<T>(n: nat, x: T): (s: seq<T>)
    ensures |s| == n && forall i :: 0 <= i < n ==> s[i] == x
  {
    seq(n, _ => x)
  }

  type TenIds = s: seq<u32> | |s| == 10 witness Repeat(10, 0)

  datatype LobbyGame = LobbyGame(gameId: u32, state: u8, owner: Name, connected: i32)

  const NO_GAME: LobbyGame := LobbyGame(0, 0, NO_NAME, 0)

  type TenGames = s: seq<LobbyGame> | |s| == 10 witness Repeat(10, NO_GAME)

  /** The common game state on the wire: enumerations are single bytes of any value. */
  datatype WireState = WireState(board: NineBytes, turn: u8, state: u8, resultX: u8, resultO: u8, role: u8)

  datatype Payload =
    | Empty
    | Move(gameId: u32, row: u8, col: u8)
    | GameState(gameId: u32, st: WireState, message64: Text64)
    | Error(message64: Text64)
    | GameList(gameIds: TenIds, count: u8, states: TenBytes)
    | GameStart(gameId: u32, role: u8, first: u8)
    | GameOver(gameId: u32, winner: u8, message64: Text64)
    | JoinRequest(gameId: u32, playerId: u32, name: Name)
    | JoinDecision(gameId: u32, flag: u8)
    | Lobby(count: u8, games: TenGames)
    | StatusChange(gameId: u32, state: u8, message128: Text128)
    | PostGameOptions(gameId: u32, flag: u8)
    | SetUsername(name: Name)

  /** `flag ? 1 : 0`. */
  function Flag(b: u8): u8 { if b == 0 then 0 else 1 }

  ghost function LobbyGameBytes(g: LobbyGame): (b: seq<u8>)
    ensures |b| == 41
  {
    U32Bytes(g.gameId) + [g.state] + g.owner + U32Bytes(AsU32(g.connected))
  }

  function LobbyGameOf(b: seq<u8>): LobbyGame
    requires |b| == 41
  {
    LobbyGame(U32At(b, 0), b[4], b[5..37], AsI32(U32At(b, 37)))
  }

  lemma LobbyGameRoundTrip(g: LobbyGame)
    ensures LobbyGameOf(LobbyGameBytes(g)) == g
  {
    var b := LobbyGameBytes(g);
    assert b[0..4] == U32Bytes(g.gameId) && b[37..41] == U32Bytes(AsU32(g.connected));
    assert b[5..37] == g.owner;
  }

  lemma LobbyGameBytesOf(b: seq<u8>)
    requires |b| == 41
    ensures LobbyGameBytes(LobbyGameOf(b)) == b
  {
    var g := LobbyGameOf(b);
    assert U32Bytes(g.gameId) == b[0..4] by { U32BytesOf(b, 0); }
    assert U32Bytes(AsU32(g.connected)) == b[37..41] by {
      U32BytesOf(b, 37);
      SignRoundTrip(U32At(b, 37));
    }
    assert b[0..4] + [b[4]] + b[5..37] + b[37..41] == b;
  }

  ghost function IdPieces(ids: seq<u32>): (cs: seq<seq<u8>>)
    ensures |cs| == |ids| && AllLong(cs, 4) && forall i :: 0 <= i < |ids| ==> cs[i] == U32Bytes(ids[i])
  {
    seq(|ids|, i requires 0 <= i < |ids| => U32Bytes(ids[i]))
  }

  ghost function GamePieces(games: seq<LobbyGame>): (cs: seq<seq<u8>>)
    ensures |cs| == |games| && AllLong(cs, 41) && forall i :: 0 <= i < |games| ==> cs[i] == LobbyGameBytes(games[i])
  {
    seq(|games|, i requires 0 <= i < |games| => LobbyGameBytes(games[i]))
  }

  function IdsOf(b: seq<u8>): (ids: TenIds)
    requires |b| == 40
  {
    var cs := Pieces(b, 4, 10);
    seq(10, i requires 0 <= i < 10 => U32At(cs[i], 0))
  }

  function GamesOf(b: seq<u8>): (games: TenGames)
    requires |b| == 410
  {
    var cs := Pieces(b, 41, 10);
    seq(10, i requires 0 <= i < 10 => LobbyGameOf(cs[i]))
  }

  lemma IdsRoundTrip(ids: TenIds)
    ensures |Flatten(IdPieces(ids))| == 40 && IdsOf(Flatten(IdPieces(ids))) == ids
  {
    PiecesFlatten(IdPieces(ids), 4);
    forall i | 0 <= i < 10 ensures U32At(IdPieces(ids)[i], 0) == ids[i] { }
  }

  lemma IdsBytesOf(b: seq<u8>)
    requires |b| == 40
    ensures Flatten(IdPieces(IdsOf(b))) == b
  {
    var cs := Pieces(b, 4, 10);
    FlattenPieces(b, 4, 10);
    forall i | 0 <= i < 10 ensures IdPieces(IdsOf(b))[i] == cs[i] { U32BytesOf(cs[i], 0); }
    assert IdPieces(IdsOf(b)) == cs;
  }

  lemma GamesRoundTrip(games: TenGames)
    ensures |Flatten(GamePieces(games))| == 410 && GamesOf(Flatten(GamePieces(games))) == games
  {
    PiecesFlatten(GamePieces(games), 41);
    forall i | 0 <= i < 10 ensures LobbyGameOf(GamePieces(games)[i]) == games[i] { LobbyGameRoundTrip(games[i]); }
  }

  lemma GamesBytesOf(b: seq<u8>)
    requires |b| == 410
    ensures Flatten(GamePieces(GamesOf(b))) == b
  {
    var cs := Pieces(b, 41, 10);
    FlattenPieces(b, 41, 10);
    GamePiecesOf(cs, GamesOf(b));
  }

  lemma GamePiecesOf(cs: seq<seq<u8>>, games: seq<LobbyGame>)
    requires AllLong(cs, 41) && |games| == |cs| && forall i :: 0 <= i < |cs| ==> games[i] == LobbyGameOf(cs[i])
    ensures GamePieces(games) == cs
  {
    forall i | 0 <= i < |cs| ensures GamePieces(games)[i] == cs[i] { LobbyGameBytesOf(cs[i]); }
  }

  function StateBytes(st: WireState): (b: seq<u8>)
    ensures |b| == 14
  {
    st.board + [st.turn, st.state, st.resultX, st.resultO, st.role]
  }

  ghost function Encode(p: Payload): seq<u8> {
    match p
    case Empty => []
    case Move(id, row, col) => U32Bytes(id) + [row, col]
    case GameState(id, st, message) => U32Bytes(id) + StateBytes(st) + message
    case Error(message) => message
    case GameList(ids, count, states) => Flatten(IdPieces(ids)) + [count] + states
    case GameStart(id, role, first) => U32Bytes(id) + [role, first]
    case GameOver(id, winner, message) => U32Bytes(id) + [winner] + message
    case JoinRequest(id, player, name) => U32Bytes(id) + U32Bytes(player) + name
    case JoinDecision(id, flag) => U32Bytes(id) + [Flag(flag)]
    case Lobby(count, games) => [count] + Flatten(GamePieces(games))
    case StatusChange(id, state, message) => U32Bytes(id) + [state] + message
    case PostGameOptions(id, flag) => U32Bytes(id) + [Flag(flag)]
    case SetUsername(name) => name
  }

  // ---- message types ----

  datatype MessageType =
    | CREATE_GAME | JOIN_GAME | MOVE | LEAVE_GAME | LIST_GAMES | GAME_STATE | GAME_LIST | GAME_START
    | GAME_OVER | JOIN_REQUEST | JOIN_DECISION | LOBBY_UPDATE | GAME_STATUS_CHANGE | POST_GAME_OPTIONS
    | SET_USERNAME | ERROR

  function Code(t: MessageType): u32 {
    match t
    case CREATE_GAME => 1
    case JOIN_GAME => 2
    case MOVE => 3
    case LEAVE_GAME => 4
    case LIST_GAMES => 5
    case GAME_STATE => 6
    case GAME_LIST => 7
    case GAME_START => 8
    case GAME_OVER => 9
    case JOIN_REQUEST => 10
    case JOIN_DECISION => 11
    case LOBBY_UPDATE => 12
    case GAME_STATUS_CHANGE => 13
    case POST_GAME_OPTIONS => 14
    case SET_USERNAME => 15
    case ERROR => 16
  }

  function TypeOf(code: u32): Option<MessageType> {
    match code
    case 1 => Some(CREATE_GAME)
    case 2 => Some(JOIN_GAME)
    case 3 => Some(MOVE)
    case 4 => Some(LEAVE_GAME)
    case 5 => Some(LIST_GAMES)
    case 6 => Some(GAME_STATE)
    case 7 => Some(GAME_LIST)
    case 8 => Some(GAME_START)
    case 9 => Some(GAME_OVER)
    case 10 => Some(JOIN_REQUEST)
    case 11 => Some(JOIN_DECISION)
    case 12 => Some(LOBBY_UPDATE)
    case 13 => Some(GAME_STATUS_CHANGE)
    case 14 => Some(POST_GAME_OPTIONS)
    case 15 => Some(SET_USERNAME)
    case 16 => Some(ERROR)
    case _ => None
  }

  /** The two tables are inverse to each other: no code stands for two types. */
  lemma CodeIffType(t: MessageType, code: u32)
    ensures TypeOf(code) == Some(t) <==> Code(t) == code
  {
  }

  /** The union member a message of each type carries; both join types share one. */
  predicate Carries(t: MessageType, p: Payload) {
    match t
    case CREATE_GAME | LEAVE_GAME | LIST_GAMES => p.Empty?
    case MOVE => p.Move?
    case GAME_STATE => p.GameState?
    case ERROR => p.Error?
    case GAME_LIST => p.GameList?
    case GAME_START => p.GameStart?
    case GAME_OVER => p.GameOver?
    case JOIN_REQUEST | JOIN_GAME => p.JoinRequest?
    case JOIN_DECISION => p.JoinDecision?
    case LOBBY_UPDATE => p.Lobby?
    case GAME_STATUS_CHANGE => p.StatusChange?
    case POST_GAME_OPTIONS => p.PostGameOptions?
    case SET_USERNAME => p.SetUsername?
  }

  function PayloadSize(t: MessageType): nat {
    match t
    case CREATE_GAME | LEAVE_GAME | LIST_GAMES => 0
    case MOVE | GAME_START => 6
    case GAME_STATE => 82
    case ERROR => 64
    case GAME_LIST => 51
    case GAME_OVER => 69
    case JOIN_REQUEST | JOIN_GAME => 40
    case JOIN_DECISION | POST_GAME_OPTIONS => 5
    case LOBBY_UPDATE => 411
    case GAME_STATUS_CHANGE => 133
    case SET_USERNAME => 32
  }

  function StateOf(b: seq<u8>): WireState
    requires |b| == 14
  {
    WireState(b[..9], b[9], b[10], b[11], b[12], b[13])
  }

  /** Every decoder accepts exactly one length. */
  function Decode(t: MessageType, b: seq<u8>): Option<Payload> {
    if |b| != PayloadSize(t) then None
    else
      match t
      case CREATE_GAME | LEAVE_GAME | LIST_GAMES => Some(Empty)
      case MOVE => Some(Move(U32At(b, 0), b[4], b[5]))
      case GAME_STATE => Some(GameState(U32At(b, 0), StateOf(b[4..18]), b[18..]))
      case ERROR => Some(Error(b))
      case GAME_LIST => Some(GameList(IdsOf(b[..40]), b[40], b[41..]))
      case GAME_START => Some(GameStart(U32At(b, 0), b[4], b[5]))
      case GAME_OVER => Some(GameOver(U32At(b, 0), b[4], b[5..]))
      case JOIN_REQUEST | JOIN_GAME => Some(JoinRequest(U32At(b, 0), U32At(b, 4), b[8..]))
      case JOIN_DECISION => Some(JoinDecision(U32At(b, 0), Flag(b[4])))
      case LOBBY_UPDATE => Some(Lobby(b[0], GamesOf(b[1..])))
      case GAME_STATUS_CHANGE => Some(StatusChange(U32At(b, 0), b[4], b[5..]))
      case POST_GAME_OPTIONS => Some(PostGameOptions(U32At(b, 0), Flag(b[4])))
      case SET_USERNAME => Some(SetUsername(b))
  }

  /** A payload with its boolean field as 0 or 1. */
  function Normal(p: Payload): Payload {
    match p
    case JoinDecision(id, flag) => JoinDecision(id, Flag(flag))
    case PostGameOptions(id, flag) => PostGameOptions(id, Flag(flag))
    case _ => p
  }

  // ---- inverses ----

  lemma EncodedSize(t: MessageType, p: Payload)
    requires Carries(t, p)
    ensures |Encode(p)| == PayloadSize(t) <= 411
  {
    match p
    case GameList(ids, _, _) => FlattenLength(IdPieces(ids), 4);
    case Lobby(_, games) => FlattenLength(GamePieces(games), 41);
    case _ =>
  }

  lemma LeadingU32(v: u32, rest: seq<u8>)
    ensures var b := U32Bytes(v) + rest;
      |b| == 4 + |rest| && U32At(b, 0) == v && b[4..] == rest
  {
  }

  /** Decoding an encoded payload gives it back, booleans as 0 or 1. */
  lemma DecodeEncode(t: MessageType, p: Payload)
    requires Carries(t, p)
    ensures Decode(t, Encode(p)) == Some(Normal(p))
  {
    EncodedSize(t, p);
    match p {
      case GameState(id, st, message) => GameStateRoundTrip(id, st, message);
      case GameList(ids, count, states) => GameListRoundTrip(ids, count, states);
      case Lobby(count, games) => LobbyRoundTrip(count, games);
      case JoinRequest(id, player, name) => JoinRequestRoundTrip(t, id, player, name);
      case Move(id, row, col) => LeadingU32(id, [row, col]);
      case GameStart(id, role, first) => LeadingU32(id, [role, first]);
      case GameOver(id, winner, message) => GameOverRoundTrip(id, winner, message);
      case StatusChange(id, state, message) => StatusChangeRoundTrip(id, state, message);
      case JoinDecision(id, flag) => LeadingU32(id, [Flag(flag)]);
      case PostGameOptions(id, flag) => LeadingU32(id, [Flag(flag)]);
      case _ =>
    }
  }

  lemma StateRoundTrip(st: WireState)
    ensures StateOf(StateBytes(st)) == st
  {
    assert StateBytes(st)[..9] == st.board;
  }

  lemma ThreeParts(a: seq<u8>, b: seq<u8>, c: seq<u8>)
    ensures var s := a + b + c;
      s[..|a|] == a && s[|a|..|a| + |b|] == b && s[|a| + |b|..] == c && s[|a|..] == b + c
  {
  }

  lemma GameStateRoundTrip(id: u32, st: WireState, message: Text64)
    ensures Decode(GAME_STATE, Encode(GameState(id, st, message))) == Some(GameState(id, st, message))
  {
    var b := Encode(GameState(id, st, message));
    assert U32At(b, 0) == id;
    ThreeParts(U32Bytes(id), StateBytes(st), message);
    StateRoundTrip(st);
    assert b[4..18] == StateBytes(st) && b[18..] == message;
  }

  lemma GameListRoundTrip(ids: TenIds, count: u8, states: TenBytes)
    ensures Decode(GAME_LIST, Encode(GameList(ids, count, states))) == Some(GameList(ids, count, states))
  {
    IdsRoundTrip(ids);
    var b := Encode(GameList(ids, count, states));
    assert b[..40] == Flatten(IdPieces(ids)) && b[41..] == states;
  }

  lemma LobbyRoundTrip(count: u8, games: TenGames)
    ensures Decode(LOBBY_UPDATE, Encode(Lobby(count, games))) == Some(Lobby(count, games))
  {
    GamesRoundTrip(games);
    assert Encode(Lobby(count, games))[1..] == Flatten(GamePieces(games));
  }

  lemma JoinRequestRoundTrip(t: MessageType, id: u32, player: u32, name: Name)
    requires t == JOIN_REQUEST || t == JOIN_GAME
    ensures Decode(t, Encode(JoinRequest(id, player, name))) == Some(JoinRequest(id, player, name))
  {
    var b := Encode(JoinRequest(id, player, name));
    assert b == U32Bytes(id) + (U32Bytes(player) + name);
    LeadingU32(id, U32Bytes(player) + name);
    LeadingU32(player, name);
    assert b[4..] == U32Bytes(player) + name && b[8..] == name;
    assert U32At(b, 4) == U32At(b[4..], 0);
  }

  lemma TaggedText(id: u32, tag: u8, text: seq<u8>)
    ensures var b := U32Bytes(id) + [tag] + text;
      |b| == 5 + |text| && U32At(b, 0) == id && b[4] == tag && b[5..] == text
  {
    var b := U32Bytes(id) + [tag] + text;
    LeadingU32(id, [tag] + text);
    assert b == U32Bytes(id) + ([tag] + text);
  }

  lemma GameOverRoundTrip(id: u32, winner: u8, message: Text64)
    ensures Decode(GAME_OVER, Encode(GameOver(id, winner, message))) == Some(GameOver(id, winner, message))
  {
    TaggedText(id, winner, message);
  }

  lemma StatusChangeRoundTrip(id: u32, state: u8, message: Text128)
    ensures Decode(GAME_STATUS_CHANGE, Encode(StatusChange(id, state, message))) ==
            Some(StatusChange(id, state, message))
  {
    TaggedText(id, state, message);
  }

  /** The one byte a decode and re-encode may change: a nonzero boolean becomes 1. */
  function Canonical(t: MessageType, b: seq<u8>): seq<u8>
    requires |b| == PayloadSize(t)
  {
    if t == JOIN_DECISION || t == POST_GAME_OPTIONS then b[4 := Flag(b[4])] else b
  }

  lemma LeadingU32Of(b: seq<u8>)
    requires |b| >= 4
    ensures b == U32Bytes(U32At(b, 0)) + b[4..]
  {
    U32BytesOf(b, 0);
  }

  lemma SmallBytesOf(t: MessageType, b: seq<u8>)
    requires t in {MOVE, GAME_START, JOIN_DECISION, POST_GAME_OPTIONS} && |b| == PayloadSize(t)
    ensures Encode(Decode(t, b).value) == Canonical(t, b)
  {
    U32BytesOf(b, 0);
  }

  lemma GameStateBytesOf(b: seq<u8>)
    requires |b| == 82
    ensures Encode(Decode(GAME_STATE, b).value) == b
  {
    LeadingU32Of(b);
    var s := b[4..18];
    assert StateBytes(StateOf(s)) == s;
    assert b[4..] == s + b[18..];
  }

  lemma TextBytesOf(t: MessageType, b: seq<u8>)
    requires t in {GAME_OVER, GAME_STATUS_CHANGE} && |b| == PayloadSize(t)
    ensures Encode(Decode(t, b).value) == b
  {
    LeadingU32Of(b);
    assert b[4..] == [b[4]] + b[5..];
  }

  lemma JoinRequestBytesOf(t: MessageType, b: seq<u8>)
    requires t in {JOIN_REQUEST, JOIN_GAME} && |b| == 40
    ensures Encode(Decode(t, b).value) == b
  {
    U32BytesOf(b, 0);
    U32BytesOf(b, 4);
    assert b == b[0..4] + b[4..8] + b[8..];
  }

  lemma GameListBytesOf(b: seq<u8>)
    requires |b| == 51
    ensures Encode(Decode(GAME_LIST, b).value) == b
  {
    var ids := IdsOf(b[..40]);
    IdsBytesOf(b[..40]);
    assert Decode(GAME_LIST, b).value == GameList(ids, b[40], b[41..]);
    assert b[..40] + [b[40]] + b[41..] == b;
  }

  lemma LobbyBytesOf(b: seq<u8>)
    requires |b| == 411
    ensures Encode(Decode(LOBBY_UPDATE, b).value) == b
  {
    var games := GamesOf(b[1..]);
    GamesBytesOf(b[1..]);
    assert Decode(LOBBY_UPDATE, b).value == Lobby(b[0], games);
    assert [b[0]] + b[1..] == b;
  }

  lemma DecodeCarries(t: MessageType, b: seq<u8>)
    requires Decode(t, b).Some?
    ensures Carries(t, Decode(t, b).value)
  {
  }

  lemma OtherBytesOf(t: MessageType, b: seq<u8>)
    requires t in {GAME_LIST, LOBBY_UPDATE, ERROR, SET_USERNAME, CREATE_GAME, LEAVE_GAME, LIST_GAMES}
    requires |b| == PayloadSize(t)
    ensures Encode(Decode(t, b).value) == b
  {
    if t == GAME_LIST { GameListBytesOf(b); }
    if t == LOBBY_UPDATE { LobbyBytesOf(b); }
  }

  /** Re-encoding an accepted payload returns its bytes, apart from that byte. */
  lemma EncodeDecode(t: MessageType, b: seq<u8>)
    requires Decode(t, b).Some?
    ensures Carries(t, Decode(t, b).value) && Encode(Decode(t, b).value) == Canonical(t, b)
  {
    DecodeCarries(t, b);
    match t {
      case MOVE | GAME_START | JOIN_DECISION | POST_GAME_OPTIONS => SmallBytesOf(t, b);
      case GAME_STATE => GameStateBytesOf(b);
      case GAME_OVER | GAME_STATUS_CHANGE => TextBytesOf(t, b);
      case JOIN_REQUEST | JOIN_GAME => JoinRequestBytesOf(t, b);
      case _ => OtherBytesOf(t, b);
    }
  }
}
