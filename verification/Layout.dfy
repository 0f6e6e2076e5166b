/** Where each field of a message is in its bytes. */
module WireLayout {
  import opened TrisTypes
  import opened WireFormat

  /** Numbers are written with the most significant byte first. */
  lemma BigEndian(b: seq<u8>, i: nat)
    requires i + 4 <= |b|
    ensures U32At(b, i) as int ==
      b[i] as int * 0x100_0000 + b[i + 1] as int * 0x1_0000 + b[i + 2] as int * 0x100 + b[i + 3] as int
  {
  }

  /** The message types in the order of their declaration. */
  const TYPES: seq<MessageType> :=
    [CREATE_GAME, JOIN_GAME, MOVE, LEAVE_GAME, LIST_GAMES, GAME_STATE, GAME_LIST, GAME_START, GAME_OVER,
     JOIN_REQUEST, JOIN_DECISION, LOBBY_UPDATE, GAME_STATUS_CHANGE, POST_GAME_OPTIONS, SET_USERNAME, ERROR]

  /** They are numbered from 1, and no other number is a type. */
  lemma CodesInOrder(code: u32)
    ensures TypeOf(code) == if 1 <= code <= 16 then Some(TYPES[code - 1]) else None
    ensures forall t :: Code(t) == code ==> 1 <= code <= 16 && TYPES[code - 1] == t
  {
  }

  lemma {:induction false} PieceAt(b: seq<u8>, k: nat, n: nat, i: nat)
    requires |b| == k * n && i < n
    ensures 0 <= k * i && k * i + k <= |b| && Pieces(b, k, n)[i] == b[k * i..k * i + k]
  {
    Scaled(k, i, n);
    Scaled(k, n - 1, n);
    OneMore(k, n - 1);
    if i < n - 1 {
      PieceAt(b[..k * (n - 1)], k, n - 1, i);
    }
  }

  /** One of the ten entries of a lobby. */
  predicate EntryAt(b: seq<u8>, i: nat, g: LobbyGame)
    requires i + 41 <= |b|
  {
    U32At(b, i) == g.gameId && b[i + 4] == g.state && b[i + 5..i + 37] == g.owner &&
    U32At(b, i + 37) == AsU32(g.connected)
  }

  predicate LaidOut(p: Payload, b: seq<u8>) {
    match p
    case Empty => b == []
    case Move(id, row, col) => |b| == 6 && U32At(b, 0) == id && b[4] == row && b[5] == col
    case GameState(id, st, message) =>
      && |b| == 82 && U32At(b, 0) == id && b[4..13] == st.board && b[13] == st.turn && b[14] == st.state
      && b[15] == st.resultX && b[16] == st.resultO && b[17] == st.role && b[18..] == message
    case Error(message) => b == message
    case GameList(ids, count, states) =>
      |b| == 51 && (forall k :: 0 <= k < 10 ==> U32At(b, 4 * k) == ids[k]) && b[40] == count && b[41..] == states
    case GameStart(id, role, first) => |b| == 6 && U32At(b, 0) == id && b[4] == role && b[5] == first
    case GameOver(id, winner, message) => |b| == 69 && U32At(b, 0) == id && b[4] == winner && b[5..] == message
    case JoinRequest(id, player, name) => |b| == 40 && U32At(b, 0) == id && U32At(b, 4) == player && b[8..] == name
    case JoinDecision(id, flag) => |b| == 5 && U32At(b, 0) == id && b[4] == if flag == 0 then 0 else 1
    case Lobby(count, games) =>
      |b| == 411 && b[0] == count && forall k :: 0 <= k < 10 ==> EntryAt(b, 1 + 41 * k, games[k])
    case StatusChange(id, state, message) => |b| == 133 && U32At(b, 0) == id && b[4] == state && b[5..] == message
    case PostGameOptions(id, flag) => |b| == 5 && U32At(b, 0) == id && b[4] == if flag == 0 then 0 else 1
    case SetUsername(name) => b == name
  }

  lemma U32Shift(b: seq<u8>, c: seq<u8>, i: nat, j: nat)
    requires i + 4 <= |b| && j + 4 <= |c| && b[i..i + 4] == c[j..j + 4]
    ensures U32At(b, i) == U32At(c, j)
  {
    var p, q := b[i..i + 4], c[j..j + 4];
    assert p[0] == b[i] && p[1] == b[i + 1] && p[2] == b[i + 2] && p[3] == b[i + 3];
    assert q[0] == c[j] && q[1] == c[j + 1] && q[2] == c[j + 2] && q[3] == c[j + 3];
  }

  lemma IdAt(b: seq<u8>, k: nat)
    requires |b| == 40 && k < 10
    ensures IdsOf(b)[k] == U32At(b, 4 * k)
  {
    PieceAt(b, 4, 10, k);
    U32Shift(b, Pieces(b, 4, 10)[k], 4 * k, 0);
  }

  lemma GameListLaidOut(ids: TenIds, count: u8, states: TenBytes)
    ensures LaidOut(GameList(ids, count, states), Encode(GameList(ids, count, states)))
  {
    var p := GameList(ids, count, states);
    var b := Encode(p);
    EncodedSize(GAME_LIST, p);
    DecodeEncode(GAME_LIST, p);
    forall k | 0 <= k < 10 ensures U32At(b, 4 * k) == ids[k] {
      IdAt(b[..40], k);
      U32Shift(b, b[..40], 4 * k, 4 * k);
    }
  }

  lemma SliceOfTail(b: seq<u8>, i: nat, n: nat)
    requires 1 + i + n <= |b|
    ensures b[1..][i..i + n] == b[1 + i..1 + i + n]
  {
  }

  lemma SliceOfSlice(b: seq<u8>, i: nat, n: nat, j: nat, m: nat)
    requires i + n <= |b| && j + m <= n
    ensures b[i..i + n][j..j + m] == b[i + j..i + j + m]
  {
    var s, t := b[i..i + n][j..j + m], b[i + j..i + j + m];
    forall x | 0 <= x < m ensures s[x] == t[x] {}
  }

  lemma EntryOfPiece(b: seq<u8>, i: nat)
    requires i + 41 <= |b|
    ensures EntryAt(b, i, LobbyGameOf(b[i..i + 41]))
  {
    var c := b[i..i + 41];
    SliceOfSlice(b, i, 41, 0, 4);
    SliceOfSlice(b, i, 41, 5, 32);
    SliceOfSlice(b, i, 41, 37, 4);
    U32Shift(b, c, i, 0);
    U32Shift(b, c, i + 37, 37);
    SignRoundTrip(U32At(c, 37));
  }

  lemma EntryIs(b: seq<u8>, k: nat)
    requires |b| == 411 && k < 10
    ensures EntryAt(b, 1 + 41 * k, GamesOf(b[1..])[k])
  {
    PieceAt(b[1..], 41, 10, k);
    SliceOfTail(b, 41 * k, 41);
    EntryOfPiece(b, 1 + 41 * k);
  }

  lemma LobbyLaidOut(count: u8, games: TenGames)
    ensures LaidOut(Lobby(count, games), Encode(Lobby(count, games)))
  {
    var p := Lobby(count, games);
    EncodedSize(LOBBY_UPDATE, p);
    DecodeEncode(LOBBY_UPDATE, p);
    forall k | 0 <= k < 10 ensures EntryAt(Encode(p), 1 + 41 * k, games[k]) {
      EntryIs(Encode(p), k);
    }
  }

  /** Every encoded payload has its fields where the format puts them. */
  lemma EncodeLaidOut(t: MessageType, p: Payload)
    requires Carries(t, p)
    ensures LaidOut(p, Encode(p))
  {
    EncodedSize(t, p);
    DecodeEncode(t, p);
    match p
    case GameState(id, st, message) =>
      var b := Encode(p);
      assert b[4..18][..9] == b[4..13];
    case GameList(ids, count, states) => GameListLaidOut(ids, count, states);
    case Lobby(count, games) => LobbyLaidOut(count, games);
    case _ =>
  }

  /** And every decoded one was read from there. */
  lemma DecodeReadsLayout(t: MessageType, b: seq<u8>)
    requires Decode(t, b).Some?
    ensures Carries(t, Decode(t, b).value) && LaidOut(Decode(t, b).value, Canonical(t, b))
  {
    EncodeDecode(t, b);
    EncodeLaidOut(t, Decode(t, b).value);
  }
}
