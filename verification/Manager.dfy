/** The game manager as an atomic machine: a list of games, calls applied one at a time, and
    what holds after every run of calls. */
module ManagerSpec {
  import opened TrisTypes
  import opened GameRules
  import opened GameLife

  datatype Op =
    | Create(socket: int, owner: Option<seq<u8>>, wantsId: bool)
    | On(id: u32, call: GameOp)
    | List

  /** Position of the first game with the given id, or the length of the list. */
  function IndexOf(games: seq<Game>, id: u32): (i: nat)
    ensures i <= |games|
    ensures i < |games| ==> games[i].id == id
    ensures forall k :: 0 <= k < i ==> games[k].id != id
  {
    if games == [] || games[0].id == id then 0 else 1 + IndexOf(games[1..], id)
  }

  lemma IndexOfIs(games: seq<Game>, id: u32, i: nat)
    requires i <= |games| && (i < |games| ==> games[i].id == id)
    requires forall k :: 0 <= k < i ==> games[k].id != id
    ensures IndexOf(games, id) == i
  {
  }

  /** The answer of a call whose game does not exist. */
  function Missing(call: GameOp): Reply {
    if call.OwnerSocket? then Socket(NOBODY) else Failed
  }

  function SnapshotOf(g: Game): Snapshot { Snapshot(g.id, g.st.state, CopyName(g.owner), 1) }

  /** The lobby scan: joinable games in list order until ten are found. */
  function Lobby(games: seq<Game>): (r: seq<Snapshot>)
    ensures |r| <= 10
  {
    if games == [] then []
    else
      var r := Lobby(games[..|games| - 1]);
      if |r| < 10 && Joinable(games[|games| - 1]) then r + [SnapshotOf(games[|games| - 1])] else r
  }

  /** A call on game i of the list; a leave that empties the game removes it. */
  function ApplyAt(games: seq<Game>, i: nat, call: GameOp): (seq<Game>, Reply)
    requires i < |games|
  {
    var (g, reply) := OnGame(games[i], call);
    if call.Leave? && reply == Left && Vacant(g) then (games[..i] + games[i + 1..], reply)
    else (games[i := g], reply)
  }

  /** One atomic manager call. `newId` is the id a create has drawn; other calls ignore it. */
  function Apply(games: seq<Game>, op: Op, newId: u32): (seq<Game>, Reply) {
    match op
    case Create(socket, owner, wantsId) =>
      (games + [NewGame(newId, socket, owner)], Created(if wantsId then Some(newId) else None))
    case On(id, call) =>
      var i := IndexOf(games, id);
      if i == |games| then (games, Missing(call)) else ApplyAt(games, i, call)
    case List => (games, Listed(Lobby(games)))
  }

  /** The atomic call, given where its game is and what it does to it. */
  lemma AppliedAt(games: seq<Game>, id: u32, call: GameOp, newId: u32, i: nat, g: Game, reply: Reply)
    requires i < |games| && IndexOf(games, id) == i && OnGame(games[i], call) == (g, reply)
    ensures Apply(games, On(id, call), newId) ==
      (if call.Leave? && reply == Left && Vacant(g) then games[..i] + games[i + 1..] else games[i := g], reply)
  {
  }

  // ---- runs ----

  datatype Entry = Entry(tid: nat, op: Op, newId: u32, reply: Reply)

  /** The games after a run of calls that starts from an empty manager. */
  function Replay(log: seq<Entry>): seq<Game> {
    if log == [] then []
    else
      var n := |log| - 1;
      Apply(Replay(log[..n]), log[n].op, log[n].newId).0
  }

  /** Every call of the run returned what the atomic machine returns. */
  predicate Legal(log: seq<Entry>) {
    forall k :: 0 <= k < |log| ==> log[k].reply == Apply(Replay(log[..k]), log[k].op, log[k].newId).1
  }

  lemma Extend(log: seq<Entry>, e: Entry)
    requires Legal(log) && e.reply == Apply(Replay(log), e.op, e.newId).1
    ensures Legal(log + [e]) && Replay(log + [e]) == Apply(Replay(log), e.op, e.newId).0
  {
    var l := log + [e];
    assert l[..|log|] == log;
    forall k | 0 <= k < |l| ensures l[k].reply == Apply(Replay(l[..k]), l[k].op, l[k].newId).1 {
      if k < |log| { assert l[..k] == log[..k]; }
    }
  }

  /** Sockets are real in every call of the run. */
  predicate RealSockets(log: seq<Entry>) {
    forall k :: 0 <= k < |log| ==>
      match log[k].op
      case Create(socket, _, _) => socket != NOBODY
      case On(_, call) => RealSocket(call)
      case List => true
  }

  predicate AllOk(games: seq<Game>) {
    forall i :: 0 <= i < |games| ==> GameOk(games[i])
  }

  lemma ApplyKeepsOk(games: seq<Game>, e: Entry)
    requires AllOk(games) && RealSockets([e])
    ensures AllOk(Apply(games, e.op, e.newId).0)
  {
    assert [e][0] == e;
    match e.op
    case Create(socket, owner, _) => NewGameOk(e.newId, socket, owner);
    case On(id, call) =>
      var i := IndexOf(games, id);
      if i < |games| { CallKeepsGameOk(games[i], call); }
    case List =>
  }

  /** The game invariant holds of every listed game after every run. */
  lemma {:induction false} RunKeepsOk(log: seq<Entry>)
    requires RealSockets(log)
    ensures AllOk(Replay(log))
  {
    if log != [] {
      var n := |log| - 1;
      RunKeepsOk(log[..n]);
      ApplyKeepsOk(Replay(log[..n]), log[n]);
    }
  }

  // ---- honest outcomes over whole runs ----

  /** The move histories of the listed games after one more call. */
  function NextHistories(games: seq<Game>, h: seq<seq<nat>>, op: Op, newId: u32): (h': seq<seq<nat>>)
    requires |h| == |games|
    ensures |h'| == |Apply(games, op, newId).0|
  {
    match op
    case Create(_, _, _) => h + [[]]
    case On(id, call) =>
      var i := IndexOf(games, id);
      if i == |games| then h
      else
        var (g, reply) := OnGame(games[i], call);
        if call.Leave? && reply == Left && Vacant(g) then h[..i] + h[i + 1..]
        else h[i := History(games[i], call, h[i])]
    case List => h
  }

  /** For each listed game, the cells chosen since its board was last cleared. */
  function Histories(log: seq<Entry>): (h: seq<seq<nat>>)
    ensures |h| == |Replay(log)|
  {
    if log == [] then []
    else
      var n := |log| - 1;
      NextHistories(Replay(log[..n]), Histories(log[..n]), log[n].op, log[n].newId)
  }

  predicate AllHonest(games: seq<Game>, h: seq<seq<nat>>) {
    |h| == |games| && forall i :: 0 <= i < |games| ==> Honest(games[i], h[i])
  }

  lemma ApplyKeepsHonest(games: seq<Game>, h: seq<seq<nat>>, e: Entry)
    requires AllHonest(games, h)
    ensures AllHonest(Apply(games, e.op, e.newId).0, NextHistories(games, h, e.op, e.newId))
  {
    match e.op
    case Create(socket, owner, _) => NewGameHonest(e.newId, socket, owner);
    case On(id, call) => OnKeepsHonest(games, h, id, call, e.newId);
    case List =>
  }

  lemma OnKeepsHonest(games: seq<Game>, h: seq<seq<nat>>, id: u32, call: GameOp, newId: u32)
    requires AllHonest(games, h)
    ensures AllHonest(Apply(games, On(id, call), newId).0, NextHistories(games, h, On(id, call), newId))
  {
    var i := IndexOf(games, id);
    if i < |games| { CallAtKeepsHonest(games, h, i, call); }
  }

  lemma CallAtKeepsHonest(games: seq<Game>, h: seq<seq<nat>>, i: nat, call: GameOp)
    requires AllHonest(games, h) && i < |games|
    ensures AllHonest(games[i := OnGame(games[i], call).0], h[i := History(games[i], call, h[i])])
    ensures AllHonest(games[..i] + games[i + 1..], h[..i] + h[i + 1..])
  {
    CallKeepsHonest(games[i], call, h[i]);
  }

  /** In every run every board is the replay of the moves accepted since its last reset: at most
      nine, on distinct cells, X and O in turn. */
  lemma {:induction false} RunIsHonest(log: seq<Entry>)
    ensures AllHonest(Replay(log), Histories(log))
  {
    if log != [] {
      var n := |log| - 1;
      RunIsHonest(log[..n]);
      ApplyKeepsHonest(Replay(log[..n]), Histories(log[..n]), log[n]);
    }
  }

  /** What a reported outcome says about the move and the board before and after it. */
  predicate HonestReport(before: Game, after: Game, call: GameOp, winner: Outcome) {
    var mover := before.st.turn;
    && before.st.state == GameInProgress
    && call.Play? && call.socket == (if mover == PlayerX then before.xSocket else before.oSocket)
    && call.row <= 2 && call.col <= 2 && before.st.board[3 * call.row + call.col] == Blank
    && after.st.board == before.st.board[3 * call.row + call.col := if mover == PlayerX then MarkX else MarkO]
    && after.st.turn != mover && after == before.(st := after.st)
    && (winner == Undecided <==> after.st.state == GameInProgress)
    && (winner == XWins <==> mover == PlayerX && HasLine(after.st.board, MarkX))
    && (winner == OWins <==> mover == PlayerO && HasLine(after.st.board, MarkO))
    && (winner == XWins ==> !HasLine(after.st.board, MarkO))
    && (winner == OWins ==> !HasLine(after.st.board, MarkX))
    && (winner == DrawnGame ==> mover == PlayerX && NoLine(after.st.board) && !HasBlank(after.st.board))
  }

  /** In every run a reported move came from the seat on turn and wrote one mark for it; a
      reported winner is the player who just moved and the only one with a line, and a draw is
      reported on X's move. */
  lemma RunReportsHonestly(log: seq<Entry>, k: nat)
    requires Legal(log) && RealSockets(log) && k < |log| && log[k].reply.Played?
    ensures log[k].op.On?
    ensures var before, after := Replay(log[..k]), Replay(log[..k + 1]);
      var i := IndexOf(before, log[k].op.id);
      i < |before| == |after| && HonestReport(before[i], after[i], log[k].op.call, log[k].reply.winner)
  {
    RunKeepsOk(log[..k]);
    assert log[..k + 1][..k] == log[..k];
    StepReportsHonestly(Replay(log[..k]), log[k]);
  }

  lemma MoveIsHonest(g: Game, call: GameOp)
    requires GameOk(g) && OnGame(g, call).1.Played?
    ensures HonestReport(g, OnGame(g, call).0, call, OnGame(g, call).1.winner)
  {
    assert call.Play? && Accepts(g, call.socket, call.row, call.col);
    MoveReport(g, call.socket, call.row, call.col);
    PlayedMove(g, call.socket, call.row, call.col);
  }

  lemma PlayedMove(g: Game, socket: int, row: u8, col: u8)
    requires Accepts(g, socket, row, col)
    ensures var g' := PlayMove(g, socket, row, col).0;
      && socket == (if g.st.turn == PlayerX then g.xSocket else g.oSocket)
      && g' == g.(st := g'.st) && g'.st.turn != g.st.turn
  {
  }

  lemma StepReportsHonestly(games: seq<Game>, e: Entry)
    requires AllOk(games) && e.reply.Played? && e.reply == Apply(games, e.op, e.newId).1
    ensures e.op.On?
    ensures var after := Apply(games, e.op, e.newId).0;
      var i := IndexOf(games, e.op.id);
      i < |games| == |after| && HonestReport(games[i], after[i], e.op.call, e.reply.winner)
  {
    var i := IndexOf(games, e.op.id);
    assert e.reply == OnGame(games[i], e.op.call).1;
    MoveIsHonest(games[i], e.op.call);
  }

  // ---- seats over whole runs ----

  /** The join guard of the request handler, at the moment of each join. */
  predicate Guarded(log: seq<Entry>) {
    forall k :: 0 <= k < |log| && log[k].op.On? ==>
      forall g :: g in Replay(log[..k]) && g.id == log[k].op.id ==> NotOwnGame(g, log[k].op.call)
  }

  predicate AllDistinct(games: seq<Game>) {
    forall i :: 0 <= i < |games| ==> SeatsDistinct(games[i])
  }

  lemma {:induction false} RunKeepsSeatsDistinct(log: seq<Entry>)
    requires RealSockets(log) && Guarded(log)
    ensures AllDistinct(Replay(log))
  {
    if log != [] {
      var n := |log| - 1;
      var games := Replay(log[..n]);
      assert Guarded(log[..n]) by {
        assert forall k :: 0 <= k < n ==> log[..n][..k] == log[..k];
      }
      RunKeepsSeatsDistinct(log[..n]);
      RunKeepsOk(log[..n]);
      assert RealSockets([log[n]]);
      ApplyKeepsSeatsDistinct(games, log[n]);
    }
  }

  lemma ApplyKeepsSeatsDistinct(games: seq<Game>, e: Entry)
    requires AllOk(games) && AllDistinct(games) && RealSockets([e])
    requires e.op.On? ==> forall g :: g in games && g.id == e.op.id ==> NotOwnGame(g, e.op.call)
    ensures AllDistinct(Apply(games, e.op, e.newId).0)
  {
    assert [e][0] == e;
    if e.op.On? {
      var i := IndexOf(games, e.op.id);
      if i < |games| {
        assert games[i] in games;
        CallKeepsSeatsDistinct(games[i], e.op.call);
      }
    }
  }

  ghost predicate LastOccupant(g: Game, socket: int) {
    SitsIn(g, socket) && forall other :: other != NOBODY && SitsIn(g, other) ==> other == socket
  }

  /** What a leave reports and does to the list of games. */
  ghost predicate LeavesRight(games: seq<Game>, games': seq<Game>, reply: Reply, id: u32, socket: int) {
    var i := IndexOf(games, id);
    if i == |games| || !SitsIn(games[i], socket) then reply == Failed && games' == games
    else if LastOccupant(games[i], socket) then reply == Left && games' == games[..i] + games[i + 1..]
    else
      && reply == Left && |games'| == |games|
      && games' == games[i := games'[i]] && !SitsIn(games'[i], socket)
  }

  /** In every run a leave succeeds exactly for a seated socket; then the game is deleted if that
      was its last occupant, and otherwise stays, without the socket, at its place. */
  lemma LeaveInEveryRun(log: seq<Entry>, k: nat)
    requires Legal(log) && RealSockets(log) && Guarded(log)
    requires k < |log| && log[k].op.On? && log[k].op.call.Leave?
    ensures LeavesRight(Replay(log[..k]), Replay(log[..k + 1]), log[k].reply, log[k].op.id, log[k].op.call.socket)
  {
    assert Guarded(log[..k]) by {
      assert forall j :: 0 <= j < k ==> log[..k][..j] == log[..j];
    }
    RunKeepsSeatsDistinct(log[..k]);
    ReplayStep(log, k);
    LeaveApplied(Replay(log[..k]), log[k].op.id, log[k].op.call.socket, log[k].newId);
  }

  lemma LeaveApplied(games: seq<Game>, id: u32, socket: int, newId: u32)
    requires AllDistinct(games) && socket != NOBODY
    ensures var (games', reply) := Apply(games, On(id, Leave(socket)), newId);
      LeavesRight(games, games', reply, id, socket)
  {
    var i := IndexOf(games, id);
    if i < |games| { LeaveAt(games, i, socket); }
  }

  lemma LeaveAt(games: seq<Game>, i: nat, socket: int)
    requires i < |games| && SeatsDistinct(games[i]) && socket != NOBODY
    ensures var (games', reply) := ApplyAt(games, i, Leave(socket));
      && reply == (if SitsIn(games[i], socket) then Left else Failed)
      && (reply != Left ==> games' == games)
      && (reply == Left && LastOccupant(games[i], socket) ==> games' == games[..i] + games[i + 1..])
      && (reply == Left && !LastOccupant(games[i], socket) ==>
            |games'| == |games| && games' == games[i := games'[i]] && !SitsIn(games'[i], socket))
  {
    LeaveClearsSocket(games[i], socket);
    var g := LeaveSeat(games[i], socket).0;
    assert games[i := games[i]] == games;
  }

  /** A call that strands a listed game without occupants. */
  predicate Strands(games: seq<Game>, op: Op) {
    op.On? &&
    var i := IndexOf(games, op.id);
    i < |games| && (OrphanReject(games[i], op.call) || OrphanVote(games[i], op.call))
  }

  predicate NoneVacant(games: seq<Game>) {
    forall i :: 0 <= i < |games| ==> !Vacant(games[i])
  }

  /** From a list without vacant games, one call leads to a list with one exactly when it is a
      reject or a draw vote in the orphaned situation. */
  lemma StrandsExactly(games: seq<Game>, e: Entry)
    requires NoneVacant(games) && RealSockets([e])
    ensures NoneVacant(Apply(games, e.op, e.newId).0) <==> !Strands(games, e.op)
  {
    assert [e][0] == e;
    if e.op.On? {
      var i := IndexOf(games, e.op.id);
      if i < |games| {
        var g := OnGame(games[i], e.op.call).0;
        if !e.op.call.Leave? {
          VacantExactly(games[i], e.op.call);
          assert games[i := g][i] == g;
        }
      }
    }
  }

  /** Hence no listed game is ever vacant in a run without such calls. */
  lemma {:induction false} RunHasNoVacantGame(log: seq<Entry>)
    requires RealSockets(log)
    requires forall k :: 0 <= k < |log| ==> !Strands(Replay(log[..k]), log[k].op)
    ensures NoneVacant(Replay(log))
  {
    if log != [] {
      var n := |log| - 1;
      forall k | 0 <= k < n ensures !Strands(Replay(log[..n][..k]), log[..n][k].op) {
        assert log[..n][..k] == log[..k];
      }
      RunHasNoVacantGame(log[..n]);
      StrandsExactly(Replay(log[..n]), log[n]);
    }
  }

  lemma ReplayStep(log: seq<Entry>, k: nat)
    requires k < |log|
    ensures Replay(log[..k + 1]) == Apply(Replay(log[..k]), log[k].op, log[k].newId).0
  {
    assert log[..k + 1][..k] == log[..k];
  }

  // ---- ids ----

  predicate UniqueIds(games: seq<Game>) {
    forall i, j :: 0 <= i < j < |games| ==> games[i].id != games[j].id
  }

  lemma ApplyKeepsUniqueIds(games: seq<Game>, op: Op, newId: u32)
    requires UniqueIds(games)
    requires op.Create? ==> forall g :: g in games ==> g.id != newId
    ensures UniqueIds(Apply(games, op, newId).0)
  {
    if op.Create? {
      assert forall i :: 0 <= i < |games| ==> games[i] in games;
    }
  }

  predicate HasId(games: seq<Game>, id: u32) {
    exists i :: 0 <= i < |games| && games[i].id == id
  }

  /** No two creates of the run drew the same id. */
  predicate DistinctCreates(log: seq<Entry>) {
    forall j, k :: 0 <= j < k < |log| && log[j].op.Create? && log[k].op.Create? ==> log[j].newId != log[k].newId
  }

  /** Then all listed ids are distinct, and each comes from a create of the run. */
  lemma {:induction false} DistinctCreatesAreUnique(log: seq<Entry>)
    requires DistinctCreates(log)
    ensures UniqueIds(Replay(log))
    ensures forall id :: HasId(Replay(log), id) ==>
      exists k :: 0 <= k < |log| && log[k].op.Create? && log[k].newId == id
  {
    if log != [] {
      var n := |log| - 1;
      DistinctCreatesAreUnique(log[..n]);
      var games := Replay(log[..n]);
      assert log[n].op.Create? ==> !HasId(games, log[n].newId);
      ApplyKeepsUniqueIds(games, log[n].op, log[n].newId);
      forall id | HasId(Replay(log), id)
        ensures exists k :: 0 <= k < |log| && log[k].op.Create? && log[k].newId == id
      {
        if !(log[n].op.Create? && log[n].newId == id) {
          OldIds(games, log[n].op, log[n].newId, id);
          var k :| 0 <= k < n && log[..n][k].op.Create? && log[..n][k].newId == id;
          assert log[k].op.Create?;
        }
      }
    }
  }

  /** Only a create adds an id. */
  lemma OldIds(games: seq<Game>, op: Op, newId: u32, id: u32)
    requires HasId(Apply(games, op, newId).0, id) && !(op.Create? && newId == id)
    ensures HasId(games, id)
  {
    var games' := Apply(games, op, newId).0;
    var k :| 0 <= k < |games'| && games'[k].id == id;
    if op.On? {
      var i := IndexOf(games, op.id);
      assert games[if |games'| < |games| && k >= i then k + 1 else k].id == id;
    }
  }

  /** The call is a leave that takes its game off the list. */
  predicate Deletes(games: seq<Game>, op: Op, id: u32) {
    op.On? && op.id == id && op.call.Leave? && |Apply(games, op, 0).0| < |games|
  }

  lemma OtherIdsStay(games: seq<Game>, op: Op, newId: u32, id: u32)
    requires HasId(games, id) && !Deletes(games, op, id)
    ensures HasId(Apply(games, op, newId).0, id)
  {
    var games' := Apply(games, op, newId).0;
    var k :| 0 <= k < |games| && games[k].id == id;
    var i := if op.On? then IndexOf(games, op.id) else |games|;
    assert games'[if |games'| < |games| && k > i then k - 1 else k].id == id;
  }

  lemma DeletedIsGone(games: seq<Game>, op: Op, id: u32)
    requires UniqueIds(games) && Deletes(games, op, id)
    ensures !HasId(Apply(games, op, 0).0, id)
  {
    var i, games' := IndexOf(games, id), Apply(games, op, 0).0;
    assert games' == games[..i] + games[i + 1..];
  }

  lemma StaysListedExactly(games: seq<Game>, op: Op, newId: u32, id: u32)
    requires UniqueIds(games) && (op.Create? ==> newId != id)
    ensures HasId(Apply(games, op, newId).0, id) <==> HasId(games, id) && !Deletes(games, op, id)
  {
    if Deletes(games, op, id) {
      DeletedIsGone(games, op, id);
    } else if HasId(games, id) {
      OtherIdsStay(games, op, newId, id);
    } else if HasId(Apply(games, op, newId).0, id) {
      OldIds(games, op, newId, id);
    }
  }

  /** Entry j of the run is a leave that takes the game with the id off the list. */
  predicate DeletesAt(log: seq<Entry>, j: nat, id: u32)
    requires j < |log|
  {
    Deletes(Replay(log[..j]), log[j].op, id)
  }

  predicate DeletedAfter(log: seq<Entry>, k: nat, id: u32) {
    exists j :: k < j < |log| && DeletesAt(log, j, id)
  }

  lemma {:induction false} DeletedAfterStep(log: seq<Entry>, k: nat, id: u32)
    requires k < |log| - 1
    ensures var n := |log| - 1; DeletedAfter(log, k, id) <==> DeletedAfter(log[..n], k, id) || DeletesAt(log, n, id)
  {
    var n := |log| - 1;
    forall j | k < j < n ensures DeletesAt(log[..n], j, id) == DeletesAt(log, j, id) {
      assert log[..n][..j] == log[..j];
    }
  }

  lemma CreatedIsListed(games: seq<Game>, op: Op, newId: u32)
    requires op.Create?
    ensures HasId(Apply(games, op, newId).0, newId)
  {
    assert Apply(games, op, newId).0[|games|].id == newId;
  }

  lemma {:induction false} LastEntry(log: seq<Entry>)
    requires log != []
    ensures var n := |log| - 1; Replay(log) == Apply(Replay(log[..n]), log[n].op, log[n].newId).0
  {
  }

  /** What the last entry does to an id that another create drew. */
  lemma {:induction false} LastEntryListed(log: seq<Entry>, k: nat, id: u32)
    requires DistinctCreates(log) && k < |log| - 1 && log[k].op.Create? && log[k].newId == id
    ensures var n := |log| - 1; HasId(Replay(log), id) <==> HasId(Replay(log[..n]), id) && !DeletesAt(log, n, id)
  {
    var n := |log| - 1;
    DistinctCreatesAreUnique(log[..n]);
    LastEntry(log);
    StaysListedExactly(Replay(log[..n]), log[n].op, log[n].newId, id);
  }

  /** A created game is listed exactly until a leave takes it off the list. */
  lemma {:induction false} ListedExactly(log: seq<Entry>, k: nat, id: u32)
    requires DistinctCreates(log) && k < |log| && log[k].op.Create? && log[k].newId == id
    ensures HasId(Replay(log), id) <==> !DeletedAfter(log, k, id)
  {
    var n := |log| - 1;
    if n == k {
      LastEntry(log);
      CreatedIsListed(Replay(log[..n]), log[n].op, log[n].newId);
    } else {
      ListedExactly(log[..n], k, id);
      LastEntryListed(log, k, id);
      DeletedAfterStep(log, k, id);
    }
  }

  // ---- the order of ids ----

  predicate Increasing(games: seq<Game>) {
    forall i, j :: 0 <= i < j < |games| ==> games[i].id < games[j].id
  }

  /** The call appends no game behind one with a larger or equal id. */
  predicate AppendsInOrder(games: seq<Game>, op: Op, newId: u32) {
    op.Create? && games != [] ==> games[|games| - 1].id < newId
  }

  lemma KeepsOrderExactly(games: seq<Game>, op: Op, newId: u32)
    requires Increasing(games)
    ensures Increasing(Apply(games, op, newId).0) <==> AppendsInOrder(games, op, newId)
  {
    var games' := Apply(games, op, newId).0;
    if op.Create? && games != [] {
      assert games'[|games| - 1].id == games[|games| - 1].id && games'[|games|].id == newId;
    }
  }

  predicate InOrderAt(log: seq<Entry>, k: nat)
    requires k <= |log|
  {
    Increasing(Replay(log[..k]))
  }

  predicate AppendsInOrderAt(log: seq<Entry>, k: nat)
    requires k < |log|
  {
    AppendsInOrder(Replay(log[..k]), log[k].op, log[k].newId)
  }

  lemma OrderPrefix(log: seq<Entry>, n: nat)
    requires n <= |log|
    ensures forall k :: 0 <= k <= n ==> InOrderAt(log[..n], k) == InOrderAt(log, k)
    ensures forall k :: 0 <= k < n ==> AppendsInOrderAt(log[..n], k) == AppendsInOrderAt(log, k)
  {
    forall k | 0 <= k <= n ensures log[..n][..k] == log[..k] {}
  }

  lemma OrderStep(log: seq<Entry>, n: nat)
    requires n < |log| && InOrderAt(log, n)
    ensures InOrderAt(log, n + 1) <==> AppendsInOrderAt(log, n)
  {
    ReplayStep(log, n);
    KeepsOrderExactly(Replay(log[..n]), log[n].op, log[n].newId);
  }

  /** The list is in the order of the ids throughout a run exactly when no create of the run
      takes effect while a game with a larger or equal id is last in the list. */
  lemma {:induction false} RunInOrderExactly(log: seq<Entry>)
    ensures (forall k :: 0 <= k <= |log| ==> InOrderAt(log, k)) <==>
            (forall k :: 0 <= k < |log| ==> AppendsInOrderAt(log, k))
  {
    if log != [] {
      var n := |log| - 1;
      RunInOrderExactly(log[..n]);
      OrderPrefix(log, n);
      if InOrderAt(log, n) { OrderStep(log, n); }
    }
  }

  // ---- the lobby ----

  function JoinableOnly(games: seq<Game>): seq<Game> {
    if games == [] then []
    else
      var n := |games| - 1;
      JoinableOnly(games[..n]) + (if Joinable(games[n]) then [games[n]] else [])
  }

  /** The lobby shows the first ten joinable games in list order, and all of them if fewer. */
  lemma {:induction false} LobbyIsFirstTen(games: seq<Game>)
    ensures var open := JoinableOnly(games);
      && |Lobby(games)| == (if |open| < 10 then |open| else 10)
      && forall k :: 0 <= k < |Lobby(games)| ==> Lobby(games)[k] == SnapshotOf(open[k])
  {
    if games != [] { LobbyIsFirstTen(games[..|games| - 1]); }
  }

  lemma {:induction false} JoinableOnlyMembers(games: seq<Game>, g: Game)
    ensures g in JoinableOnly(games) <==>
      g in games && g.st.state == GameWaiting && g.oSocket == NOBODY && g.waitingSocket == NOBODY
  {
    if games != [] {
      var n := |games| - 1;
      JoinableOnlyMembers(games[..n], g);
      assert games == games[..n] + [games[n]];
    }
  }

  /** A join succeeds exactly on a waiting game with neither O nor a waiting player, which are the
      games that the lobby shows, up to the tenth; a join on any other game changes nothing. */
  lemma LobbyAgreesWithJoin(games: seq<Game>, i: nat, socket: int, name: Option<seq<u8>>, newId: u32)
    requires UniqueIds(games) && i < |games|
    ensures var g := games[i];
      var (games', reply) := Apply(games, On(g.id, Join(socket, name)), newId);
      && (reply == Joined <==> g in JoinableOnly(games))
      && (reply == Joined <==> g.st.state == GameWaiting && g.oSocket == NOBODY && g.waitingSocket == NOBODY)
      && (reply == Joined ==>
            |games'| == |games| && games' == games[i := games'[i]] && games'[i].waitingSocket == socket)
      && (reply != Joined ==> reply == Failed && games' == games)
  {
    IndexOfIs(games, games[i].id, i);
    JoinableOnlyMembers(games, games[i]);
    JoinAt(games, i, socket, name);
  }

  lemma JoinAt(games: seq<Game>, i: nat, socket: int, name: Option<seq<u8>>)
    requires i < |games|
    ensures var (games', reply) := ApplyAt(games, i, Join(socket, name));
      && reply == (if Joinable(games[i]) then Joined else Failed)
      && (reply == Joined ==> games' == games[i := games'[i]] && games'[i].waitingSocket == socket)
      && (reply != Joined ==> games' == games)
  {
    assert games[i := games[i]] == games;
  }

  /** How many games of the list can be joined. */
  function OpenCount(games: seq<Game>): nat {
    if games == [] then 0
    else
      var n, g := |games| - 1, games[|games| - 1];
      OpenCount(games[..n]) +
      if g.st.state == GameWaiting && g.oSocket == NOBODY && g.waitingSocket == NOBODY then 1 else 0
  }

  lemma {:induction false} OpenCountIs(games: seq<Game>)
    ensures OpenCount(games) == |JoinableOnly(games)|
  {
    if games != [] { OpenCountIs(games[..|games| - 1]); }
  }

  lemma {:induction false} OpenPosition(games: seq<Game>, i: nat)
    requires i < |games| && Joinable(games[i])
    ensures OpenCount(games[..i]) < |JoinableOnly(games)| && JoinableOnly(games)[OpenCount(games[..i])] == games[i]
  {
    var n := |games| - 1;
    if i == n {
      OpenCountIs(games[..n]);
    } else {
      assert games[..n][..i] == games[..i];
      OpenPosition(games[..n], i);
    }
  }

  /** The lobby has an entry for each joinable game with fewer than ten joinable games before it:
      their number is its place. */
  lemma LobbyShows(games: seq<Game>, i: nat)
    requires i < |games|
    ensures |Lobby(games)| == (if OpenCount(games) < 10 then OpenCount(games) else 10)
    ensures var g, k := games[i], OpenCount(games[..i]);
      g.st.state == GameWaiting && g.oSocket == NOBODY && g.waitingSocket == NOBODY && k < 10 ==>
        k < |Lobby(games)| && Lobby(games)[k] == Snapshot(g.id, GameWaiting, CopyName(g.owner), 1)
  {
    OpenCountIs(games);
    LobbyIsFirstTen(games);
    if Joinable(games[i]) { OpenPosition(games, i); }
  }

  /** What the lobby shows is always a game that can be joined. */
  lemma LobbyShowsOnlyOpen(games: seq<Game>, k: nat) returns (i: nat)
    requires k < |Lobby(games)|
    ensures i < |games| && games[i].id == Lobby(games)[k].id
    ensures games[i].st.state == GameWaiting && games[i].oSocket == NOBODY && games[i].waitingSocket == NOBODY
  {
    LobbyIsFirstTen(games);
    var g := JoinableOnly(games)[k];
    JoinableOnlyMembers(games, g);
    i :| 0 <= i < |games| && games[i] == g;
  }

  lemma LobbyStep(games: seq<Game>, i: nat)
    requires i < |games|
    ensures var r := Lobby(games[..i]);
      Lobby(games[..i + 1]) == if |r| < 10 && Joinable(games[i]) then r + [SnapshotOf(games[i])] else r
  {
    assert games[..i + 1][..i] == games[..i];
  }

  /** Once ten games are found the rest of the list does not matter. */
  lemma {:induction false} LobbyFull(games: seq<Game>, n: nat)
    requires n <= |games| && |Lobby(games[..n])| >= 10
    ensures Lobby(games) == Lobby(games[..n])
    decreases |games|
  {
    if n < |games| {
      var m := |games| - 1;
      assert games[..m][..n] == games[..n];
      LobbyFull(games[..m], n);
    } else {
      assert games[..n] == games;
    }
  }
}
