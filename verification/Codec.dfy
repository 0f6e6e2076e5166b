/** The serializers and deserializers as they run: a byte cursor that advances over a buffer,
    and structures filled field by field. Each is proved against WireFormat. */
module PayloadCodec {
  import opened TrisTypes
  import opened WireFormat

  lemma {:induction false} FlattenStep(cs: seq<seq<u8>>, i: nat)
    requires i < |cs|
    ensures Flatten(cs[..i + 1]) == Flatten(cs[..i]) + cs[i]
  {
    assert cs[..i + 1][..i] == cs[..i];
  }

  lemma {:induction false} PieceAt(b: seq<u8>, k: nat, n: nat, i: nat)
    requires |b| == k * n && i < n
    ensures 0 <= k * i && k * i + k <= |b| && Pieces(b, k, n)[i] == b[k * i..k * i + k]
  {
    Scaled(k, i, n);
    if i < n - 1 {
      Scaled(k, n - 1, n);
      Scaled(k, i, n - 1);
      PieceAt(b[..k * (n - 1)], k, n - 1, i);
    }
  }

  /** A pointer that walks over a buffer. */
  class Cursor {
    const buf: array<u8>
    var pos: nat

    /** What has been written or read so far. */
    ghost function Done(): seq<u8>
      reads this, buf
      requires pos <= buf.Length
    {
      buf[..pos]
    }

    constructor (buf: array<u8>)
      ensures this.buf == buf && pos == 0
    {
      this.buf := buf;
      pos := 0;
    }

    method WriteU8(v: u8)
      requires pos < buf.Length
      modifies this, buf
      ensures pos == old(pos) + 1 && Done() == old(Done()) + [v]
      ensures forall k :: pos <= k < buf.Length ==> buf[k] == old(buf[k])
    {
      buf[pos] := v;
      pos := pos + 1;
    }

    method WriteU32(v: u32)
      requires pos + 4 <= buf.Length
      modifies this, buf
      ensures pos == old(pos) + 4 && Done() == old(Done()) + U32Bytes(v)
      ensures forall k :: pos <= k < buf.Length ==> buf[k] == old(buf[k])
    {
      U32Unique(NetworkOrder(v), U32Bytes(v));
      CopyIn(NetworkOrder(v));
    }

    /** `memcpy` into the buffer. */
    method CopyIn(bytes: seq<u8>)
      requires pos + |bytes| <= buf.Length
      modifies this, buf
      ensures pos == old(pos) + |bytes| && Done() == old(Done()) + bytes
      ensures forall k :: pos <= k < buf.Length ==> buf[k] == old(buf[k])
    {
      forall k | 0 <= k < |bytes| {
        buf[pos + k] := bytes[k];
      }
      pos := pos + |bytes|;
    }

    method ReadU8() returns (v: u8)
      requires pos < buf.Length
      modifies this
      ensures pos == old(pos) + 1 && v == buf[old(pos)]
    {
      v := buf[pos];
      pos := pos + 1;
    }

    method ReadU32() returns (v: u32)
      requires pos + 4 <= buf.Length
      modifies this
      ensures pos == old(pos) + 4 && v == U32At(buf[..], old(pos))
    {
      v := U32At(buf[..], pos);
      pos := pos + 4;
    }

    /** `memcpy` out of the buffer. */
    method CopyOut(n: nat) returns (bytes: seq<u8>)
      requires pos + n <= buf.Length
      modifies this
      ensures pos == old(pos) + n && bytes == buf[old(pos)..pos]
    {
      bytes := buf[pos..pos + n];
      pos := pos + n;
    }
  }

  /** A serializer fails exactly when the buffer is too small, and then leaves it alone;
      otherwise it writes the encoding at the front and nothing behind it. */
  ghost predicate Serialized(p: Payload, r: Option<nat>, before: seq<u8>, after: seq<u8>) {
    var b := Encode(p);
    if |before| < |b| then r == None && after == before
    else r == Some(|b|) && after == b + before[|b|..]
  }

  /** A cursor that has written the encoding from the start of its buffer. */
  lemma SerializedTo(p: Payload, n: nat, before: seq<u8>, after: seq<u8>)
    requires n == |Encode(p)| <= |before| == |after| && after[..n] == Encode(p)
    requires forall k :: n <= k < |before| ==> after[k] == before[k]
    ensures Serialized(p, Some(n), before, after)
  {
    assert after == after[..n] + after[n..];
    assert after[n..] == before[n..];
  }

  lemma SliceOfSlice(b: seq<u8>, lo: nat, hi: nat, i: nat, j: nat)
    requires lo <= hi <= |b| && i <= j <= hi - lo
    ensures b[lo..hi][i..j] == b[lo + i..lo + j]
  {
    var s, r := b[lo..hi][i..j], b[lo + i..lo + j];
    forall k | 0 <= k < |s| ensures s[k] == r[k] {
      assert s[k] == b[lo..hi][i + k];
    }
  }

  lemma U32AtSlice(b: seq<u8>, lo: nat, hi: nat, i: nat)
    requires lo <= hi <= |b| && i + 4 <= hi - lo
    ensures U32At(b[lo..hi], i) == U32At(b, lo + i)
  {
  }

  method SerializeMove(src: Payload, dst: array<u8>) returns (r: Option<nat>)
    requires src.Move?
    modifies dst
    ensures Serialized(src, r, old(dst[..]), dst[..])
  {
    if dst.Length < 6 {
      return None;
    }
    var p := new Cursor(dst);
    p.WriteU32(src.gameId);
    p.WriteU8(src.row);
    p.WriteU8(src.col);
    assert p.Done() == U32Bytes(src.gameId) + [src.row, src.col];
    SerializedTo(src, 6, old(dst[..]), dst[..]);
    return Some(6);
  }

  method DeserializeMove(src: array<u8>, len: nat) returns (r: Option<Payload>)
    requires len <= src.Length
    ensures r == Decode(MOVE, src[..len])
  {
    if len != 6 {
      return None;
    }
    var p := new Cursor(src);
    var id := p.ReadU32();
    U32AtSlice(src[..], 0, len, 0);
    var row := p.ReadU8();
    var col := p.ReadU8();
    return Some(Move(id, row, col));
  }

  method SerializeGameState(src: Payload, dst: array<u8>) returns (r: Option<nat>)
    requires src.GameState?
    modifies dst
    ensures Serialized(src, r, old(dst[..]), dst[..])
  {
    if dst.Length < 82 {
      return None;
    }
    var p := new Cursor(dst);
    p.WriteU32(src.gameId);
    WriteState(p, src.st);
    p.CopyIn(src.message64);
    SerializedTo(src, 82, old(dst[..]), dst[..]);
    return Some(82);
  }

  /** The board in row order, then the five enumerations. */
  method WriteState(p: Cursor, st: WireState)
    requires p.pos + 14 <= p.buf.Length
    modifies p, p.buf
    ensures p.pos == old(p.pos) + 14 && p.Done() == old(p.Done()) + StateBytes(st)
    ensures forall k :: p.pos <= k < p.buf.Length ==> p.buf[k] == old(p.buf[k])
  {
    WriteBoard(p, st.board);
    ghost var done := p.Done();
    p.WriteU8(st.turn);
    p.WriteU8(st.state);
    p.WriteU8(st.resultX);
    p.WriteU8(st.resultO);
    p.WriteU8(st.role);
    assert p.Done() == done + [st.turn, st.state, st.resultX, st.resultO, st.role];
  }

  method WriteBoard(p: Cursor, board: NineBytes)
    requires p.pos + 9 <= p.buf.Length
    modifies p, p.buf
    ensures p.pos == old(p.pos) + 9 && p.Done() == old(p.Done()) + board
    ensures forall k :: p.pos <= k < p.buf.Length ==> p.buf[k] == old(p.buf[k])
  {
    for i := 0 to 3
      invariant p.pos == old(p.pos) + 3 * i && p.Done() == old(p.Done()) + board[..3 * i]
      invariant forall k :: p.pos <= k < p.buf.Length ==> p.buf[k] == old(p.buf[k])
    {
      for j := 0 to 3
        invariant p.pos == old(p.pos) + 3 * i + j && p.Done() == old(p.Done()) + board[..3 * i + j]
        invariant forall k :: p.pos <= k < p.buf.Length ==> p.buf[k] == old(p.buf[k])
      {
        p.WriteU8(board[3 * i + j]);
      }
    }
  }

  method DeserializeGameState(src: array<u8>, len: nat) returns (r: Option<Payload>)
    requires len <= src.Length
    ensures r == Decode(GAME_STATE, src[..len])
  {
    if len != 82 {
      return None;
    }
    var p := new Cursor(src);
    var id := p.ReadU32();
    U32AtSlice(src[..], 0, len, 0);
    var st := ReadState(p);
    var message := p.CopyOut(64);
    ghost var b := src[..len];
    assert b[4..18] == src[4..18] && b[18..] == message;
    return Some(GameState(id, st, message));
  }

  method ReadState(p: Cursor) returns (st: WireState)
    requires p.pos + 14 <= p.buf.Length
    modifies p
    ensures p.pos == old(p.pos) + 14 && st == StateOf(p.buf[old(p.pos)..p.pos])
  {
    ghost var start := p.pos;
    var board: NineBytes := Zeros(9);
    for i := 0 to 3
      invariant p.pos == start + 3 * i && board[..3 * i] == p.buf[start..start + 3 * i]
    {
      for j := 0 to 3
        invariant p.pos == start + 3 * i + j && board[..3 * i + j] == p.buf[start..start + 3 * i + j]
      {
        var cell := p.ReadU8();
        board := board[3 * i + j := cell];
      }
    }
    assert board == p.buf[start..start + 9];
    var turn := p.ReadU8();
    var state := p.ReadU8();
    var resultX := p.ReadU8();
    var resultO := p.ReadU8();
    var role := p.ReadU8();
    st := WireState(board, turn, state, resultX, resultO, role);
    assert p.buf[start..start + 14][..9] == board;
  }

  method SerializeError(src: Payload, dst: array<u8>) returns (r: Option<nat>)
    requires src.Error?
    modifies dst
    ensures Serialized(src, r, old(dst[..]), dst[..])
  {
    if dst.Length < 64 {
      return None;
    }
    var p := new Cursor(dst);
    p.CopyIn(src.message64);
    SerializedTo(src, 64, old(dst[..]), dst[..]);
    return Some(64);
  }

  method DeserializeError(src: array<u8>, len: nat) returns (r: Option<Payload>)
    requires len <= src.Length
    ensures r == Decode(ERROR, src[..len])
  {
    if len != 64 {
      return None;
    }
    return Some(Error(src[..64]));
  }

  method SerializeGameList(src: Payload, dst: array<u8>) returns (r: Option<nat>)
    requires src.GameList?
    modifies dst
    ensures Serialized(src, r, old(dst[..]), dst[..])
  {
    ghost var cs := IdPieces(src.gameIds);
    FlattenLength(cs, 4);
    if dst.Length < 51 {
      return None;
    }
    var p := new Cursor(dst);
    for i := 0 to 10
      invariant p.pos == 4 * i && p.Done() == Flatten(cs[..i])
      invariant forall k :: p.pos <= k < dst.Length ==> dst[k] == old(dst[k])
    {
      FlattenStep(cs, i);
      p.WriteU32(src.gameIds[i]);
    }
    assert cs[..10] == cs;
    p.WriteU8(src.count);
    WriteTen(p, src.states);
    SerializedTo(src, 51, old(dst[..]), dst[..]);
    return Some(51);
  }

  method WriteTen(p: Cursor, states: TenBytes)
    requires p.pos + 10 <= p.buf.Length
    modifies p, p.buf
    ensures p.pos == old(p.pos) + 10 && p.Done() == old(p.Done()) + states
    ensures forall k :: p.pos <= k < p.buf.Length ==> p.buf[k] == old(p.buf[k])
  {
    for i := 0 to 10
      invariant p.pos == old(p.pos) + i && p.Done() == old(p.Done()) + states[..i]
      invariant forall k :: p.pos <= k < p.buf.Length ==> p.buf[k] == old(p.buf[k])
    {
      p.WriteU8(states[i]);
    }
  }

  method DeserializeGameList(src: array<u8>, len: nat) returns (r: Option<Payload>)
    requires len <= src.Length
    ensures r == Decode(GAME_LIST, src[..len])
  {
    if len != 51 {
      return None;
    }
    var p := new Cursor(src);
    var ids: TenIds := Repeat(10, 0);
    for i := 0 to 10
      invariant p.pos == 4 * i && ids[..i] == IdsOf(src[..40])[..i]
    {
      var id := p.ReadU32();
      PieceAt(src[..40], 4, 10, i);
      SliceOfSlice(src[..], 0, 40, 4 * i, 4 * i + 4);
      U32AtSlice(src[..], 4 * i, 4 * i + 4, 0);
      assert id == IdsOf(src[..40])[i];
      ids := ids[i := id];
    }
    assert ids == IdsOf(src[..40]);
    var count := p.ReadU8();
    var states: TenBytes := Zeros(10);
    for i := 0 to 10
      invariant p.pos == 41 + i && states[..i] == src[41..41 + i]
    {
      var state := p.ReadU8();
      states := states[i := state];
    }
    assert src[..len][..40] == src[..40] && src[..len][41..] == states;
    return Some(GameList(ids, count, states));
  }

  method SerializeGameStart(src: Payload, dst: array<u8>) returns (r: Option<nat>)
    requires src.GameStart?
    modifies dst
    ensures Serialized(src, r, old(dst[..]), dst[..])
  {
    if dst.Length < 6 {
      return None;
    }
    var p := new Cursor(dst);
    p.WriteU32(src.gameId);
    p.WriteU8(src.role);
    p.WriteU8(src.first);
    assert p.Done() == U32Bytes(src.gameId) + [src.role, src.first];
    SerializedTo(src, 6, old(dst[..]), dst[..]);
    return Some(6);
  }

  method DeserializeGameStart(src: array<u8>, len: nat) returns (r: Option<Payload>)
    requires len <= src.Length
    ensures r == Decode(GAME_START, src[..len])
  {
    if len != 6 {
      return None;
    }
    var p := new Cursor(src);
    var id := p.ReadU32();
    U32AtSlice(src[..], 0, len, 0);
    var role := p.ReadU8();
    var first := p.ReadU8();
    return Some(GameStart(id, role, first));
  }

  method SerializeGameOver(src: Payload, dst: array<u8>) returns (r: Option<nat>)
    requires src.GameOver?
    modifies dst
    ensures Serialized(src, r, old(dst[..]), dst[..])
  {
    if dst.Length < 69 {
      return None;
    }
    var p := new Cursor(dst);
    p.WriteU32(src.gameId);
    p.WriteU8(src.winner);
    p.CopyIn(src.message64);
    SerializedTo(src, 69, old(dst[..]), dst[..]);
    return Some(69);
  }

  method DeserializeGameOver(src: array<u8>, len: nat) returns (r: Option<Payload>)
    requires len <= src.Length
    ensures r == Decode(GAME_OVER, src[..len])
  {
    if len != 69 {
      return None;
    }
    var p := new Cursor(src);
    var id := p.ReadU32();
    U32AtSlice(src[..], 0, len, 0);
    var winner := p.ReadU8();
    var message := p.CopyOut(64);
    assert src[..len][5..] == message;
    return Some(GameOver(id, winner, message));
  }

  method SerializeJoinRequest(src: Payload, dst: array<u8>) returns (r: Option<nat>)
    requires src.JoinRequest?
    modifies dst
    ensures Serialized(src, r, old(dst[..]), dst[..])
  {
    if dst.Length < 40 {
      return None;
    }
    var p := new Cursor(dst);
    p.WriteU32(src.gameId);
    p.WriteU32(src.playerId);
    p.CopyIn(src.name);
    SerializedTo(src, 40, old(dst[..]), dst[..]);
    return Some(40);
  }

  method DeserializeJoinRequest(t: MessageType, src: array<u8>, len: nat) returns (r: Option<Payload>)
    requires len <= src.Length && (t == JOIN_REQUEST || t == JOIN_GAME)
    ensures r == Decode(t, src[..len])
  {
    if len != 40 {
      return None;
    }
    var p := new Cursor(src);
    var id := p.ReadU32();
    var player := p.ReadU32();
    U32AtSlice(src[..], 0, len, 0);
    U32AtSlice(src[..], 0, len, 4);
    var name := p.CopyOut(32);
    assert src[..len][8..] == name;
    return Some(JoinRequest(id, player, name));
  }

  method SerializeJoinDecision(src: Payload, dst: array<u8>) returns (r: Option<nat>)
    requires src.JoinDecision?
    modifies dst
    ensures Serialized(src, r, old(dst[..]), dst[..])
  {
    if dst.Length < 5 {
      return None;
    }
    var p := new Cursor(dst);
    p.WriteU32(src.gameId);
    p.WriteU8(if src.flag != 0 then 1 else 0);
    SerializedTo(src, 5, old(dst[..]), dst[..]);
    return Some(5);
  }

  method DeserializeJoinDecision(src: array<u8>, len: nat) returns (r: Option<Payload>)
    requires len <= src.Length
    ensures r == Decode(JOIN_DECISION, src[..len])
  {
    if len != 5 {
      return None;
    }
    var p := new Cursor(src);
    var id := p.ReadU32();
    U32AtSlice(src[..], 0, len, 0);
    var flag := p.ReadU8();
    return Some(JoinDecision(id, if flag != 0 then 1 else 0));
  }

  lemma AppendStep(start: seq<u8>, cs: seq<seq<u8>>, i: nat)
    requires i < |cs|
    ensures start + Flatten(cs[..i + 1]) == start + Flatten(cs[..i]) + cs[i]
  {
    FlattenStep(cs, i);
  }

  method SerializeLobby(src: Payload, dst: array<u8>) returns (r: Option<nat>)
    requires src.Lobby?
    modifies dst
    ensures Serialized(src, r, old(dst[..]), dst[..])
  {
    FlattenLength(GamePieces(src.games), 41);
    if dst.Length < 411 {
      return None;
    }
    var p := new Cursor(dst);
    p.WriteU8(src.count);
    WriteGames(p, src.games);
    SerializedTo(src, 411, old(dst[..]), dst[..]);
    return Some(411);
  }

  method WriteGames(p: Cursor, games: TenGames)
    requires p.pos + 410 <= p.buf.Length
    modifies p, p.buf
    ensures p.pos == old(p.pos) + 410 && p.Done() == old(p.Done()) + Flatten(GamePieces(games))
    ensures forall k :: p.pos <= k < p.buf.Length ==> p.buf[k] == old(p.buf[k])
  {
    ghost var cs := GamePieces(games);
    for i := 0 to 10
      invariant p.pos == old(p.pos) + 41 * i && p.Done() == old(p.Done()) + Flatten(cs[..i])
      invariant forall k :: p.pos <= k < p.buf.Length ==> p.buf[k] == old(p.buf[k])
    {
      AppendStep(old(p.Done()), cs, i);
      WriteLobbyGame(p, games[i]);
    }
    assert cs[..10] == cs;
  }

  method WriteLobbyGame(p: Cursor, g: LobbyGame)
    requires p.pos + 41 <= p.buf.Length
    modifies p, p.buf
    ensures p.pos == old(p.pos) + 41 && p.Done() == old(p.Done()) + LobbyGameBytes(g)
    ensures forall k :: p.pos <= k < p.buf.Length ==> p.buf[k] == old(p.buf[k])
  {
    p.WriteU32(g.gameId);
    p.WriteU8(g.state);
    p.CopyIn(g.owner);
    p.WriteU32(AsU32(g.connected));
  }

  method DeserializeLobby(src: array<u8>, len: nat) returns (r: Option<Payload>)
    requires len <= src.Length
    ensures r == Decode(LOBBY_UPDATE, src[..len])
  {
    if len != 411 {
      return None;
    }
    var p := new Cursor(src);
    var count := p.ReadU8();
    var games := ReadGames(p);
    assert src[..len][1..] == src[1..411];
    return Some(Lobby(count, games));
  }

  method ReadGames(p: Cursor) returns (games: TenGames)
    requires p.pos + 410 <= p.buf.Length
    modifies p
    ensures p.pos == old(p.pos) + 410 && games == GamesOf(p.buf[old(p.pos)..p.pos])
  {
    ghost var start := p.pos;
    ghost var body := p.buf[start..start + 410];
    ghost var all := GamesOf(body);
    games := Repeat(10, NO_GAME);
    for i := 0 to 10
      invariant p.pos == start + 41 * i && games[..i] == all[..i]
    {
      var g := ReadLobbyGame(p);
      PieceAt(body, 41, 10, i);
      SliceOfSlice(p.buf[..], start, start + 410, 41 * i, 41 * i + 41);
      assert g == all[i];
      games := games[i := g];
    }
  }

  method ReadLobbyGame(p: Cursor) returns (g: LobbyGame)
    requires p.pos + 41 <= p.buf.Length
    modifies p
    ensures p.pos == old(p.pos) + 41 && g == LobbyGameOf(p.buf[old(p.pos)..p.pos])
  {
    var id := p.ReadU32();
    var state := p.ReadU8();
    var owner := p.CopyOut(32);
    var connected := p.ReadU32();
    g := LobbyGame(id, state, owner, AsI32(connected));
    U32AtSlice(p.buf[..], old(p.pos), p.pos, 0);
    U32AtSlice(p.buf[..], old(p.pos), p.pos, 37);
    assert p.buf[old(p.pos)..p.pos][5..37] == owner;
  }

  method SerializeStatusChange(src: Payload, dst: array<u8>) returns (r: Option<nat>)
    requires src.StatusChange?
    modifies dst
    ensures Serialized(src, r, old(dst[..]), dst[..])
  {
    if dst.Length < 133 {
      return None;
    }
    var p := new Cursor(dst);
    p.WriteU32(src.gameId);
    p.WriteU8(src.state);
    p.CopyIn(src.message128);
    SerializedTo(src, 133, old(dst[..]), dst[..]);
    return Some(133);
  }

  method DeserializeStatusChange(src: array<u8>, len: nat) returns (r: Option<Payload>)
    requires len <= src.Length
    ensures r == Decode(GAME_STATUS_CHANGE, src[..len])
  {
    if len != 133 {
      return None;
    }
    var p := new Cursor(src);
    var id := p.ReadU32();
    U32AtSlice(src[..], 0, len, 0);
    var state := p.ReadU8();
    var message := p.CopyOut(128);
    assert src[..len][5..] == message;
    return Some(StatusChange(id, state, message));
  }

  method SerializePostGameOptions(src: Payload, dst: array<u8>) returns (r: Option<nat>)
    requires src.PostGameOptions?
    modifies dst
    ensures Serialized(src, r, old(dst[..]), dst[..])
  {
    if dst.Length < 5 {
      return None;
    }
    var p := new Cursor(dst);
    p.WriteU32(src.gameId);
    p.WriteU8(if src.flag != 0 then 1 else 0);
    SerializedTo(src, 5, old(dst[..]), dst[..]);
    return Some(5);
  }

  method DeserializePostGameOptions(src: array<u8>, len: nat) returns (r: Option<Payload>)
    requires len <= src.Length
    ensures r == Decode(POST_GAME_OPTIONS, src[..len])
  {
    if len != 5 {
      return None;
    }
    var p := new Cursor(src);
    var id := p.ReadU32();
    U32AtSlice(src[..], 0, len, 0);
    var flag := p.ReadU8();
    return Some(PostGameOptions(id, if flag != 0 then 1 else 0));
  }

  method SerializeSetUsername(src: Payload, dst: array<u8>) returns (r: Option<nat>)
    requires src.SetUsername?
    modifies dst
    ensures Serialized(src, r, old(dst[..]), dst[..])
  {
    if dst.Length < 32 {
      return None;
    }
    var p := new Cursor(dst);
    p.CopyIn(src.name);
    SerializedTo(src, 32, old(dst[..]), dst[..]);
    return Some(32);
  }

  method DeserializeSetUsername(src: array<u8>, len: nat) returns (r: Option<Payload>)
    requires len <= src.Length
    ensures r == Decode(SET_USERNAME, src[..len])
  {
    if len != 32 {
      return None;
    }
    return Some(SetUsername(src[..32]));
  }

  /** The switch of `send_message`. */
  method Serialize(t: MessageType, src: Payload, dst: array<u8>) returns (r: Option<nat>)
    requires Carries(t, src)
    modifies dst
    ensures Serialized(src, r, old(dst[..]), dst[..])
  {
    match t {
      case MOVE => r := SerializeMove(src, dst);
      case GAME_STATE => r := SerializeGameState(src, dst);
      case ERROR => r := SerializeError(src, dst);
      case GAME_LIST => r := SerializeGameList(src, dst);
      case GAME_START => r := SerializeGameStart(src, dst);
      case GAME_OVER => r := SerializeGameOver(src, dst);
      case JOIN_REQUEST | JOIN_GAME => r := SerializeJoinRequest(src, dst);
      case JOIN_DECISION => r := SerializeJoinDecision(src, dst);
      case LOBBY_UPDATE => r := SerializeLobby(src, dst);
      case GAME_STATUS_CHANGE => r := SerializeStatusChange(src, dst);
      case POST_GAME_OPTIONS => r := SerializePostGameOptions(src, dst);
      case SET_USERNAME => r := SerializeSetUsername(src, dst);
      case CREATE_GAME | LEAVE_GAME | LIST_GAMES => r := Some(0);
    }
  }

  /** The switch of `receive_message`. */
  method Deserialize(t: MessageType, src: array<u8>, len: nat) returns (r: Option<Payload>)
    requires len <= src.Length
    ensures r == Decode(t, src[..len])
  {
    match t {
      case MOVE => r := DeserializeMove(src, len);
      case GAME_STATE => r := DeserializeGameState(src, len);
      case ERROR => r := DeserializeError(src, len);
      case GAME_LIST => r := DeserializeGameList(src, len);
      case GAME_START => r := DeserializeGameStart(src, len);
      case GAME_OVER => r := DeserializeGameOver(src, len);
      case JOIN_REQUEST | JOIN_GAME => r := DeserializeJoinRequest(t, src, len);
      case JOIN_DECISION => r := DeserializeJoinDecision(src, len);
      case LOBBY_UPDATE => r := DeserializeLobby(src, len);
      case GAME_STATUS_CHANGE => r := DeserializeStatusChange(src, len);
      case POST_GAME_OPTIONS => r := DeserializePostGameOptions(src, len);
      case SET_USERNAME => r := DeserializeSetUsername(src, len);
      case CREATE_GAME | LEAVE_GAME | LIST_GAMES => r := if len != 0 then None else Some(Empty);
    }
  }
}
