/** The laws of single calls over whole runs of the manager. */
module RunLaws {
  import opened TrisTypes
  import opened GameRules
  import opened GameLife
  import opened GameLaws
  import opened ManagerSpec

  /** A create appends an open game of its own, with the drawn id, and reports the id if asked. */
  lemma CreateAppends(games: seq<Game>, socket: int, owner: Option<seq<u8>>, wantsId: bool, newId: u32)
    ensures var (games', reply) := Apply(games, Create(socket, owner, wantsId), newId);
      var n := |games|;
      && |games'| == n + 1 && games'[..n] == games
      && games'[n].id == newId && OpenFor(games'[n], socket)
      && games'[n].owner == (match owner case Some(name) => CopyName(name) case None => NO_NAME)
      && !games'[n].xReceived && !games'[n].oReceived && CLength(games'[n].waiting) == 0
      && reply == Created(if wantsId then Some(newId) else None)
  {
  }

  /** A call on a game that is not listed changes nothing and fails; asked for the owner of such a
      game, the manager answers that there is nobody. */
  lemma UnknownGame(games: seq<Game>, id: u32, call: GameOp, newId: u32)
    requires !HasId(games, id)
    ensures Apply(games, On(id, call), newId) == (games, if call.OwnerSocket? then Socket(NOBODY) else Failed)
  {
  }

  /** A call on a listed game works on the first one with the id and on no other. */
  lemma OnlyThatGame(games: seq<Game>, id: u32, call: GameOp, newId: u32, i: nat)
    requires i < |games| && games[i].id == id && (forall k :: 0 <= k < i ==> games[k].id != id) && !call.Leave?
    ensures var (games', reply) := Apply(games, On(id, call), newId);
      && |games'| == |games| && (games'[i], reply) == OnGame(games[i], call)
      && forall k :: 0 <= k < |games| && k != i ==> games'[k] == games[k]
  {
    IndexOfIs(games, id, i);
  }

  /** A move on the first game with the id, accepted or refused as it should be; a refused one
      leaves the list alone. */
  predicate MovesRight(games: seq<Game>, games': seq<Game>, id: u32, call: GameOp, reply: Reply) {
    var i := IndexOf(games, id);
    && call.Play?
    && (reply.Played? <==> i < |games| && MayMove(games[i], call.socket, call.row, call.col))
    && (!reply.Played? ==> reply == Failed && games' == games)
  }

  lemma MoveApplied(games: seq<Game>, id: u32, call: GameOp, newId: u32)
    requires AllDistinct(games) && call.Play? && RealSocket(call)
    ensures var (games', reply) := Apply(games, On(id, call), newId); MovesRight(games, games', id, call, reply)
  {
    var i := IndexOf(games, id);
    if i < |games| {
      MoveAcceptedExactly(games[i], call.socket, call.row, call.col);
      assert games[i := games[i]] == games;
    }
  }

  lemma GuardedPrefix(log: seq<Entry>, k: nat)
    requires RealSockets(log) && Guarded(log) && k <= |log|
    ensures RealSockets(log[..k]) && Guarded(log[..k])
  {
    assert forall j :: 0 <= j < k ==> log[..k][..j] == log[..j];
  }

  /** In every run a move is accepted exactly from the seat on turn, onto a blank cell of a game in
      progress; a refused one changes no game. */
  lemma MoveInEveryRun(log: seq<Entry>, k: nat)
    requires Legal(log) && RealSockets(log) && Guarded(log)
    requires k < |log| && log[k].op.On? && log[k].op.call.Play?
    ensures MovesRight(Replay(log[..k]), Replay(log[..k + 1]), log[k].op.id, log[k].op.call, log[k].reply)
  {
    GuardedPrefix(log, k);
    RunKeepsSeatsDistinct(log[..k]);
    ReplayStep(log, k);
    MoveApplied(Replay(log[..k]), log[k].op.id, log[k].op.call, log[k].newId);
  }

  // ---- pending joins ----

  /** The joiner sits in the waiting seat of the game. */
  predicate Pending(games: seq<Game>, id: u32, joiner: int) {
    var i := IndexOf(games, id);
    i < |games| && games[i].waitingSocket == joiner
  }

  /** The calls that can end his wait: a decision on the game, or his own leave. */
  predicate EndsWait(op: Op, id: u32, joiner: int) {
    op.On? && op.id == id && (op.call.Decide? || op.call == Leave(joiner))
  }

  lemma PendingElsewhere(games: seq<Game>, id: u32, joiner: int, j: nat, g: Game)
    requires Pending(games, id, joiner) && j < |games| && games[j].id != id && g.id == games[j].id
    ensures Pending(games[j := g], id, joiner) && Pending(games[..j] + games[j + 1..], id, joiner)
  {
    var i := IndexOf(games, id);
    IndexOfIs(games[j := g], id, i);
    IndexOfIs(games[..j] + games[j + 1..], id, if j < i then i - 1 else i);
  }

  lemma PendingHere(games: seq<Game>, id: u32, joiner: int, call: GameOp, newId: u32)
    requires AllOk(games) && RealSocket(call) && joiner != NOBODY && Pending(games, id, joiner)
    requires !call.Decide? && call != Leave(joiner)
    ensures var (games', reply) := Apply(games, On(id, call), newId);
      Pending(games', id, joiner) && (call.Join? ==> reply == Failed && games' == games)
  {
    var i := IndexOf(games, id);
    PendingStays(games[i], call);
    var g := OnGame(games[i], call).0;
    assert games[i := games[i]] == games;
    IndexOfIs(games[i := g], id, i);
  }

  lemma PendingStep(games: seq<Game>, e: Entry, id: u32, joiner: int)
    requires AllOk(games) && RealSockets([e]) && joiner != NOBODY
    requires Pending(games, id, joiner) && !EndsWait(e.op, id, joiner)
    ensures var (games', reply) := Apply(games, e.op, e.newId);
      && Pending(games', id, joiner)
      && (e.op.On? && e.op.id == id && e.op.call.Join? ==> reply == Failed && games' == games)
  {
    assert [e][0] == e;
    var i := IndexOf(games, id);
    match e.op
    case Create(socket, owner, _) => IndexOfIs(games + [NewGame(e.newId, socket, owner)], id, i);
    case On(other, call) =>
      var j := IndexOf(games, other);
      if other == id {
        PendingHere(games, id, joiner, call, e.newId);
      } else if j < |games| {
        PendingElsewhere(games, id, joiner, j, OnGame(games[j], call).0);
      }
    case List =>
  }

  lemma JoinedIsPending(games: seq<Game>, id: u32, call: GameOp, newId: u32)
    requires call.Join? && Apply(games, On(id, call), newId).1 == Joined
    ensures Pending(Apply(games, On(id, call), newId).0, id, call.socket)
  {
    var i := IndexOf(games, id);
    IndexOfIs(Apply(games, On(id, call), newId).0, id, i);
  }

  /** One entry of a run that does not end the wait. */
  lemma PendingEntry(log: seq<Entry>, n: nat, id: u32, joiner: int)
    requires Legal(log) && RealSockets(log) && n < |log| && joiner != NOBODY
    requires Pending(Replay(log[..n]), id, joiner) && !EndsWait(log[n].op, id, joiner)
    ensures Pending(Replay(log[..n + 1]), id, joiner)
    ensures log[n].op.On? && log[n].op.id == id && log[n].op.call.Join? ==>
      log[n].reply == Failed && Replay(log[..n + 1]) == Replay(log[..n])
  {
    RunKeepsOk(log[..n]);
    ReplayStep(log, n);
    assert RealSockets([log[n]]);
    PendingStep(Replay(log[..n]), log[n], id, joiner);
  }

  /** Entry k let the joiner take the waiting seat of the game. */
  predicate JoinsAt(log: seq<Entry>, k: nat, id: u32, joiner: int) {
    && k < |log| && log[k].op.On? && log[k].op.id == id
    && log[k].op.call.Join? && log[k].op.call.socket == joiner && log[k].reply == Joined
  }

  /** No entry between the two ends his wait. */
  predicate Unanswered(log: seq<Entry>, k: nat, j: nat, id: u32, joiner: int)
    requires j <= |log|
  {
    forall m :: k < m < j ==> !EndsWait(log[m].op, id, joiner)
  }

  lemma PendingAfterJoin(log: seq<Entry>, k: nat, id: u32, joiner: int)
    requires Legal(log) && RealSockets(log) && JoinsAt(log, k, id, joiner)
    ensures joiner != NOBODY && Pending(Replay(log[..k + 1]), id, joiner)
  {
    ReplayStep(log, k);
    JoinedIsPending(Replay(log[..k]), id, log[k].op.call, log[k].newId);
  }

  lemma {:induction false} PendingSince(log: seq<Entry>, k: nat, j: nat, id: u32, joiner: int)
    requires Legal(log) && RealSockets(log) && k < j <= |log|
    requires JoinsAt(log, k, id, joiner) && Unanswered(log, k, j, id, joiner)
    ensures joiner != NOBODY && Pending(Replay(log[..j]), id, joiner)
  {
    PendingAfterJoin(log, k, id, joiner);
    if k < j - 1 {
      PendingSince(log, k, j - 1, id, joiner);
      PendingEntry(log, j - 1, id, joiner);
    }
  }

  /** In every run a game that was joined refuses all further joins, without a change, until a
      decision on it or the leave of the joiner. */
  lemma JoinedRefusesOthers(log: seq<Entry>, k: nat, j: nat, id: u32, joiner: int)
    requires Legal(log) && RealSockets(log) && k < j < |log|
    requires JoinsAt(log, k, id, joiner) && Unanswered(log, k, j, id, joiner)
    requires log[j].op.On? && log[j].op.id == id && log[j].op.call.Join?
    ensures log[j].reply == Failed && Replay(log[..j + 1]) == Replay(log[..j])
  {
    PendingSince(log, k, j, id, joiner);
    PendingEntry(log, j, id, joiner);
  }

  lemma PendingNotShown(games: seq<Game>, id: u32, joiner: int)
    requires UniqueIds(games) && joiner != NOBODY && Pending(games, id, joiner)
    ensures forall k :: 0 <= k < |Lobby(games)| ==> Lobby(games)[k].id != id
  {
    forall k | 0 <= k < |Lobby(games)| ensures Lobby(games)[k].id != id {
      var i := LobbyShowsOnlyOpen(games, k);
      assert i != IndexOf(games, id);
    }
  }

  /** And until then no lobby shows it. */
  lemma JoinedIsNotShown(log: seq<Entry>, k: nat, j: nat, id: u32, joiner: int)
    requires Legal(log) && RealSockets(log) && DistinctCreates(log) && k < j < |log|
    requires JoinsAt(log, k, id, joiner) && Unanswered(log, k, j, id, joiner) && log[j].op.List?
    ensures log[j].reply.Listed? && forall i :: 0 <= i < |log[j].reply.games| ==> log[j].reply.games[i].id != id
  {
    PendingSince(log, k, j, id, joiner);
    DistinctCreatesAreUnique(log[..j]);
    PendingNotShown(Replay(log[..j]), id, joiner);
  }
}
