/** The table of connected clients: a hundred slots, scanned from the front by every operation. */
module ClientTable {
  import opened TrisTypes

  const MAX_CLIENTS: nat := 100

  type Username = s: seq<u8> | |s| == 50 witness Zeros(50)

  const NO_GAME_ID: int := -1

  /** `currentGame` is a C `int`: an id is stored by a cast. */
  datatype Client = Client(socket: int, username: Username, currentGame: i32, playing: bool, active: bool)

  type Table = seq<Client>

  const GUEST: seq<u8> := [71, 117, 101, 115, 116]
  const UNKNOWN: seq<u8> := [85, 110, 107, 110, 111, 119, 110]

  // ---- the operations on values ----

  predicate Holds(c: Client, socket: int) { c.active && c.socket == socket }

  /** The first active slot of a socket, or the number of slots. */
  function SlotOf(t: Table, socket: int): (i: nat)
    ensures i <= |t|
    ensures i < |t| ==> Holds(t[i], socket)
    ensures forall k :: 0 <= k < i ==> !Holds(t[k], socket)
  {
    if t == [] || Holds(t[0], socket) then 0 else 1 + SlotOf(t[1..], socket)
  }

  lemma SlotOfIs(t: Table, socket: int, i: nat)
    requires i <= |t| && (i < |t| ==> Holds(t[i], socket)) && forall k :: 0 <= k < i ==> !Holds(t[k], socket)
    ensures SlotOf(t, socket) == i
  {
  }

  function FreeSlot(t: Table): (i: nat)
    ensures i <= |t| && (i < |t| ==> !t[i].active) && forall k :: 0 <= k < i ==> t[k].active
  {
    if t == [] || !t[0].active then 0 else 1 + FreeSlot(t[1..])
  }

  lemma FreeSlotIs(t: Table, i: nat)
    requires i <= |t| && (i < |t| ==> !t[i].active) && forall k :: 0 <= k < i ==> t[k].active
    ensures FreeSlot(t) == i
  {
  }

  /** A slot taken into use; `snprintf` writes the name "Guest" over the start of the old one. */
  function Seated(c: Client, socket: int): Client {
    Client(socket, GUEST + [0] + c.username[6..], NO_GAME_ID, false, true)
  }

  function Added(t: Table, socket: int): (Table, Option<nat>) {
    var i := FreeSlot(t);
    if i == |t| then (t, None) else (t[i := Seated(t[i], socket)], Some(i))
  }

  function Removed(t: Table, socket: int): Table {
    var i := SlotOf(t, socket);
    if i == |t| then t else t[i := t[i].(active := false, playing := false, currentGame := NO_GAME_ID)]
  }

  predicate IsPlaying(t: Table, socket: int) {
    exists i :: 0 <= i < |t| && Holds(t[i], socket) && t[i].playing
  }

  function SetPlaying(t: Table, socket: int, playing: bool, gameId: u32): (r: Table)
    ensures |r| == |t|
  {
    var i := SlotOf(t, socket);
    if i == |t| then t
    else t[i := t[i].(playing := playing, currentGame := if playing then AsI32(gameId) else NO_GAME_ID)]
  }

  function CurrentGame(t: Table, socket: int): i32 {
    var i := SlotOf(t, socket);
    if i == |t| then NO_GAME_ID else t[i].currentGame
  }

  /** The name under which a socket takes part in games. */
  function NameOf(t: Table, socket: int): Name {
    var i := SlotOf(t, socket);
    CopyName(if i == |t| then UNKNOWN else t[i].username)
  }

  function Renamed(t: Table, socket: int, name: Name): Table {
    var i := SlotOf(t, socket);
    if i == |t| then t else t[i := t[i].(username := CopyString(name, 50))]
  }

  /** Both players of a game marked, in every slot that holds one of them. */
  function Marked(t: Table, x: int, o: int, gameId: u32): (r: Table)
    ensures |r| == |t|
  {
    seq(|t|, i requires 0 <= i < |t| => MarkedSlot(t[i], x, o, gameId))
  }

  function MarkedSlot(c: Client, x: int, o: int, gameId: u32): Client {
    if Holds(c, x) || Holds(c, o) then c.(playing := true, currentGame := AsI32(gameId)) else c
  }

  // ---- who is connected ----

  function ActiveCount(t: Table): (n: nat)
    ensures n <= |t|
  {
    if t == [] then 0 else (if t[0].active then 1 else 0) + ActiveCount(t[1..])
  }

  predicate IsConnected(t: Table, socket: int) {
    exists i :: 0 <= i < |t| && Holds(t[i], socket)
  }

  /** No socket is held by two slots. */
  predicate SocketsDistinct(t: Table) {
    forall i, j :: 0 <= i < j < |t| && t[i].active && t[j].active ==> t[i].socket != t[j].socket
  }

  lemma {:induction false} ActiveAfter(t: Table, i: nat, c: Client)
    requires i < |t|
    ensures ActiveCount(t[i := c]) + (if t[i].active then 1 else 0) == ActiveCount(t) + (if c.active then 1 else 0)
  {
    if i == 0 {
      assert t[i := c][1..] == t[1..];
    } else {
      assert t[i := c][1..] == t[1..][i - 1 := c];
      ActiveAfter(t[1..], i - 1, c);
    }
  }

  lemma {:induction false} FullExactly(t: Table)
    ensures ActiveCount(t) == |t| <==> FreeSlot(t) == |t|
  {
    if t != [] { FullExactly(t[1..]); }
  }

  /** A client is refused exactly when every slot is taken; otherwise its socket is connected
      too, every other slot keeps its contents, and a new socket is found in its slot. */
  lemma AddedMeaning(t: Table, socket: int)
    ensures var (t', r) := Added(t, socket);
      && (r.None? <==> ActiveCount(t) == |t|)
      && (r.None? ==> t' == t)
      && (r.Some? ==>
            && |t'| == |t| && r.value < |t| && !t[r.value].active
            && ActiveCount(t') == ActiveCount(t) + 1
            && (forall k :: 0 <= k < |t| && k != r.value ==> t'[k] == t[k])
            && (forall s :: IsConnected(t', s) <==> IsConnected(t, s) || s == socket)
            && (!IsConnected(t, socket) ==>
                  && SlotOf(t', socket) == r.value
                  && (SocketsDistinct(t) ==> SocketsDistinct(t'))))
  {
    FullExactly(t);
    var i := FreeSlot(t);
    if i < |t| {
      var t' := Added(t, socket).0;
      ActiveAfter(t, i, Seated(t[i], socket));
      OneSlotChanged(t, t', i, socket);
      if !IsConnected(t, socket) { SlotOfIs(t', socket, i); }
    }
  }

  /** A free slot given to a socket. */
  lemma OneSlotChanged(t: Table, t': Table, i: nat, socket: int)
    requires |t'| == |t| && i < |t| && !t[i].active && Holds(t'[i], socket)
    requires forall k :: 0 <= k < |t| && k != i ==> t'[k] == t[k]
    ensures forall s :: IsConnected(t', s) <==> IsConnected(t, s) || s == socket
  {
    forall s ensures IsConnected(t', s) <==> IsConnected(t, s) || s == socket {
      if k :| 0 <= k < |t| && Holds(t[k], s) { assert Holds(t'[k], s); }
    }
  }

  /** A removal frees the socket's first slot and touches no other; the socket is gone and all
      others stay. */
  lemma RemovedMeaning(t: Table, socket: int)
    requires SocketsDistinct(t)
    ensures var t' := Removed(t, socket);
      && |t'| == |t| && SocketsDistinct(t')
      && ActiveCount(t') == ActiveCount(t) - (if IsConnected(t, socket) then 1 else 0)
      && (forall k :: 0 <= k < |t| && !Holds(t[k], socket) ==> t'[k] == t[k])
      && (forall s :: IsConnected(t', s) <==> IsConnected(t, s) && s != socket)
  {
    var i, t' := SlotOf(t, socket), Removed(t, socket);
    if i < |t| {
      ActiveAfter(t, i, t'[i]);
      forall s ensures IsConnected(t', s) <==> IsConnected(t, s) && s != socket {
        if k :| 0 <= k < |t| && Holds(t[k], s) && s != socket { assert Holds(t'[k], s); }
      }
    }
  }

  /** A client that comes and goes leaves the connected clients as they were. */
  lemma AddThenRemove(t: Table, socket: int)
    requires Added(t, socket).1.Some? && SocketsDistinct(t) && !IsConnected(t, socket)
    ensures var t' := Removed(Added(t, socket).0, socket);
      |t'| == |t| && ActiveCount(t') == ActiveCount(t) && forall k :: 0 <= k < |t| && t[k].active ==> t'[k] == t[k]
  {
    AddedMeaning(t, socket);
    RemovedMeaning(Added(t, socket).0, socket);
    assert forall k :: 0 <= k < |t| && t[k].active ==> !Holds(t[k], socket);
  }

  // ---- the playing marks ----

  /** Slots keep their sockets. */
  predicate SameSockets(t: Table, t': Table) {
    |t'| == |t| && forall k :: 0 <= k < |t| ==> t'[k].active == t[k].active && t'[k].socket == t[k].socket
  }

  lemma SameSlots(t: Table, t': Table, socket: int)
    requires SameSockets(t, t')
    ensures SlotOf(t', socket) == SlotOf(t, socket)
  {
    SlotOfIs(t', socket, SlotOf(t, socket));
  }

  lemma {:induction false} SameActive(t: Table, t': Table)
    requires SameSockets(t, t')
    ensures ActiveCount(t') == ActiveCount(t)
  {
    if t != [] { SameActive(t[1..], t'[1..]); }
  }

  /** Marks of different sockets can be set in either order. */
  lemma SetPlayingCommutes(t: Table, a: int, pa: bool, ga: u32, b: int, pb: bool, gb: u32)
    requires a != b
    ensures SetPlaying(SetPlaying(t, a, pa, ga), b, pb, gb) == SetPlaying(SetPlaying(t, b, pb, gb), a, pa, ga)
  {
    SameSlots(t, SetPlaying(t, a, pa, ga), b);
    SameSlots(t, SetPlaying(t, b, pb, gb), a);
    var i, j := SlotOf(t, a), SlotOf(t, b);
    if i < |t| && j < |t| {
      assert t[i].socket == a && t[j].socket == b;
      SwapUpdates(t, i, SetPlaying(t, a, pa, ga)[i], j, SetPlaying(t, b, pb, gb)[j]);
    }
  }

  lemma SwapUpdates<T>(s: seq<T>, i: nat, x: T, j: nat, y: T)
    requires i < |s| && j < |s| && i != j
    ensures s[i := x][j := y] == s[j := y][i := x] && s[i := x][j] == s[j] && s[j := y][i] == s[i]
  {
  }

  /** A mark set twice is the second one. */
  lemma SetPlayingTwice(t: Table, a: int, p: bool, g: u32, p': bool, g': u32)
    ensures SetPlaying(SetPlaying(t, a, p, g), a, p', g') == SetPlaying(t, a, p', g')
  {
    SameSlots(t, SetPlaying(t, a, p, g), a);
  }

  /** Marking both players everywhere includes marking each in its first slot. */
  lemma MarkedAbsorbs(t: Table, x: int, o: int, gameId: u32)
    ensures Marked(SetPlaying(SetPlaying(t, x, true, gameId), o, true, gameId), x, o, gameId) == Marked(t, x, o, gameId)
  {
  }

  /** The game a connected player is recorded in can be read back, except for the one id whose
      cast is the value that means "no game". */
  lemma CurrentGameIsRecorded(t: Table, socket: int, gameId: u32)
    requires IsConnected(t, socket)
    ensures var g := CurrentGame(SetPlaying(t, socket, true, gameId), socket);
      && (g == NO_GAME_ID <==> gameId == 0xFFFF_FFFF)
      && AsU32(g) == gameId
  {
    SameSlots(t, SetPlaying(t, socket, true, gameId), socket);
  }

  // ---- what the operations mean, slot by slot ----

  predicate InSlot(t: Table, k: nat, socket: int) { k < |t| && Holds(t[k], socket) }

  /** What the table says about a connected client is what its slot says. */
  lemma LookupsRead(t: Table, k: nat, socket: int)
    requires SocketsDistinct(t) && InSlot(t, k, socket)
    ensures SlotOf(t, socket) == k
    ensures CurrentGame(t, socket) == t[k].currentGame && NameOf(t, socket) == CopyName(t[k].username)
    ensures IsPlaying(t, socket) <==> t[k].playing
  {
  }

  /** And what it says about others. */
  lemma LookupsOfStranger(t: Table, socket: int)
    requires forall k :: 0 <= k < |t| ==> !InSlot(t, k, socket)
    ensures CurrentGame(t, socket) == -1 && NameOf(t, socket) == CopyName(UNKNOWN) && !IsPlaying(t, socket)
  {
    forall k | 0 <= k < |t| ensures !Holds(t[k], socket) {
      assert !InSlot(t, k, socket);
    }
    SlotOfIs(t, socket, |t|);
  }

  /** The slot of one client marked, and no other touched. */
  predicate Remarked(t: Table, t': Table, socket: int, playing: bool, game: i32) {
    && |t'| == |t|
    && forall k :: 0 <= k < |t| ==>
         t'[k] == if InSlot(t, k, socket) then t[k].(playing := playing, currentGame := game) else t[k]
  }

  /** Setting a mark writes flag and game into the slot of the client, no game for a mark that is
      cleared. Whoever is marked counts as playing from then on, and nobody else is affected. */
  lemma SetPlayingMeaning(t: Table, socket: int, playing: bool, gameId: u32)
    requires SocketsDistinct(t)
    ensures var t' := SetPlaying(t, socket, playing, gameId);
      && Remarked(t, t', socket, playing, if playing then AsI32(gameId) else -1)
      && SocketsDistinct(t')
      && forall s :: IsPlaying(t', s) <==> if s == socket then playing && IsConnected(t, s) else IsPlaying(t, s)
  {
    var t' := SetPlaying(t, socket, playing, gameId);
    forall s ensures IsPlaying(t', s) <==> if s == socket then playing && IsConnected(t, s) else IsPlaying(t, s) {
      if s == socket {
        if IsConnected(t, s) { assert Holds(t'[SlotOf(t, s)], s); }
      } else if i :| 0 <= i < |t| && Holds(t[i], s) && t[i].playing {
        assert Holds(t'[i], s) && t'[i].playing;
      }
    }
  }

  /** The last loop of the join decision marks every slot of both players. */
  lemma MarkedMeaning(t: Table, x: int, o: int, gameId: u32)
    ensures var t' := Marked(t, x, o, gameId);
      && |t'| == |t|
      && forall k :: 0 <= k < |t| ==>
           t'[k] == if InSlot(t, k, x) || InSlot(t, k, o)
                    then t[k].(playing := true, currentGame := AsI32(gameId))
                    else t[k]
  {
  }

  /** A new client is called "Guest", plays nowhere and is recorded in no game; the first free slot
      is his, and all others stay as they were. */
  lemma NewClientIsGuest(t: Table, socket: int)
    requires !IsConnected(t, socket) && Added(t, socket).1.Some?
    ensures var (t', r) := Added(t, socket);
      && InSlot(t', r.value, socket) && (forall k :: 0 <= k < r.value ==> t[k].active)
      && t' == t[r.value := t'[r.value]]
      && NameOf(t', socket) == CopyName(GUEST) && CurrentGame(t', socket) == -1 && !IsPlaying(t', socket)
  {
    var t' := Added(t, socket).0;
    SlotOfIs(t', socket, FreeSlot(t));
    GuestIsCopied(t[FreeSlot(t)].username[6..]);
  }

  lemma GuestIsCopied(rest: seq<u8>)
    ensures CopyName(GUEST + [0] + rest) == CopyName(GUEST)
  {
    var s := GUEST + [0] + rest;
    forall i | 0 <= i < 32 ensures CopyName(s)[i] == CopyName(GUEST)[i] {
      CopyStringBytes(s, 32, i);
      CopyStringBytes(GUEST, 32, i);
      if i >= 5 { assert s[5] == 0; }
    }
  }

  /** A new name is stored in the slot of the client, shortened to its size, and nowhere else. */
  lemma RenamedMeaning(t: Table, socket: int, name: Name)
    requires SocketsDistinct(t)
    ensures var t' := Renamed(t, socket, name);
      && |t'| == |t|
      && forall k :: 0 <= k < |t| ==>
           t'[k] == if InSlot(t, k, socket) then t[k].(username := CopyString(name, 50)) else t[k]
  {
  }

  // ---- the table in memory ----

  class Clients {
    const slots: array<Client>
    var activeCount: int

    ghost predicate Valid()
      reads this, slots
    {
      slots.Length == MAX_CLIENTS && activeCount == ActiveCount(slots[..])
    }

    ghost function Table(): Table
      reads slots
    {
      slots[..]
    }

    constructor ()
      ensures Valid() && fresh(slots) && ActiveCount(Table()) == 0
    {
      slots := new Client[MAX_CLIENTS](_ => Client(0, Zeros(50), 0, false, false));
      activeCount := 0;
      new;
      NoneActive(slots[..]);
    }

    method AddClient(socket: int) returns (r: Option<nat>)
      requires Valid()
      modifies this, slots
      ensures Valid() && (Table(), r) == Added(old(Table()), socket)
    {
      if activeCount >= MAX_CLIENTS {
        FullExactly(slots[..]);
        return None;
      }
      for i := 0 to MAX_CLIENTS
        invariant unchanged(this, slots)
        invariant forall k :: 0 <= k < i ==> slots[k].active
      {
        if !slots[i].active {
          FreeSlotIs(slots[..], i);
          ActiveAfter(slots[..], i, Seated(slots[i], socket));
          slots[i] := Seated(slots[i], socket);
          activeCount := activeCount + 1;
          assert slots[..] == Added(old(slots[..]), socket).0;
          return Some(i);
        }
      }
      FreeSlotIs(slots[..], MAX_CLIENTS);
      return None;
    }

    method RemoveClient(socket: int)
      requires Valid()
      modifies this, slots
      ensures Valid() && Table() == Removed(old(Table()), socket)
    {
      var i := Find(socket);
      if i < MAX_CLIENTS {
        ActiveAfter(slots[..], i, Removed(slots[..], socket)[i]);
        slots[i] := slots[i].(active := false, playing := false, currentGame := NO_GAME_ID);
        activeCount := activeCount - 1;
        assert slots[..] == Removed(old(slots[..]), socket);
      }
    }

    /** The scan for a client's slot that most operations start with. */
    method Find(socket: int) returns (i: nat)
      requires Valid()
      ensures i == SlotOf(Table(), socket)
    {
      for i' := 0 to MAX_CLIENTS
        invariant forall k :: 0 <= k < i' ==> !Holds(slots[k], socket)
      {
        if slots[i'].active && slots[i'].socket == socket {
          SlotOfIs(slots[..], socket, i');
          return i';
        }
      }
      SlotOfIs(slots[..], socket, MAX_CLIENTS);
      return MAX_CLIENTS;
    }

    method ClientIsPlaying(socket: int) returns (playing: bool)
      requires Valid()
      ensures playing == IsPlaying(Table(), socket)
    {
      for i := 0 to MAX_CLIENTS
        invariant forall k :: 0 <= k < i ==> !(Holds(slots[k], socket) && slots[k].playing)
      {
        if slots[i].active && slots[i].socket == socket && slots[i].playing {
          assert Holds(slots[..][i], socket) && slots[..][i].playing;
          return true;
        }
      }
      return false;
    }

    method ClientSetPlaying(socket: int, playing: bool, gameId: u32)
      requires Valid()
      modifies slots
      ensures Valid() && Table() == SetPlaying(old(Table()), socket, playing, gameId)
    {
      var i := Find(socket);
      if i < MAX_CLIENTS {
        slots[i] := slots[i].(playing := playing, currentGame := if playing then AsI32(gameId) else NO_GAME_ID);
        SameActive(old(slots[..]), slots[..]);
      }
    }

    method GetCurrentGame(socket: int) returns (gameId: i32)
      requires Valid()
      ensures gameId == CurrentGame(Table(), socket)
    {
      var i := Find(socket);
      return if i < MAX_CLIENTS then slots[i].currentGame else NO_GAME_ID;
    }

    method FindUsername(socket: int) returns (name: Name)
      requires Valid()
      ensures name == NameOf(Table(), socket)
    {
      var i := Find(socket);
      return CopyName(if i < MAX_CLIENTS then slots[i].username else UNKNOWN);
    }

    method SetUsername(socket: int, name: Name)
      requires Valid()
      modifies slots
      ensures Valid() && Table() == Renamed(old(Table()), socket, name)
    {
      var i := Find(socket);
      if i < MAX_CLIENTS {
        slots[i] := slots[i].(username := CopyString(name, 50));
        SameActive(old(slots[..]), slots[..]);
      }
    }

    /** The last loop of the join decision, over all slots. */
    method MarkPlayers(x: int, o: int, gameId: u32)
      requires Valid()
      modifies slots
      ensures Valid() && Table() == Marked(old(Table()), x, o, gameId)
    {
      for i := 0 to MAX_CLIENTS
        invariant forall k :: 0 <= k < i ==> slots[k] == MarkedSlot(old(slots[k]), x, o, gameId)
        invariant forall k :: i <= k < MAX_CLIENTS ==> slots[k] == old(slots[k])
      {
        if slots[i].active {
          if slots[i].socket == x || slots[i].socket == o {
            slots[i] := slots[i].(playing := true, currentGame := AsI32(gameId));
          }
        }
      }
      SameActive(old(slots[..]), slots[..]);
    }
  }

  lemma {:induction false} NoneActive(t: Table)
    requires forall k :: 0 <= k < |t| ==> !t[k].active
    ensures ActiveCount(t) == 0
  {
    if t != [] { NoneActive(t[1..]); }
  }
}
