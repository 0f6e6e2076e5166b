# Tris: a verified model of the server core, the client queue and the wire protocol

Tris is a client and server for tic-tac-toe over TCP. The server keeps a linked list of games
under a hand-over-hand locking scheme, a table of a hundred clients, and one thread per client.
This project models its core in Dafny 4.11 and proves what every run of it keeps.

## How it is built

| file | what it models |
|---|---|
| `Types.dfy`, `Rules.dfy` | enumerations, names, one game: board, seats, votes, and the effect of each call on it |
| `Life.dfy`, `Laws.dfy` | the game invariant, honest boards, distinct seats; what each call does, field by field |
| `Manager.dfy`, `RunLaws.dfy`, `ManagerWitness.dfy`, `Cleanup.dfy` | the manager as an atomic machine over a list of games; runs; ids; the lobby; moves and joins over runs; concrete runs; the cleanup of owned games |
| `GameList.dfy` | the manager in memory: nodes, `head`, `tail`, `next`, updated in place, proved equal to the atomic machine |
| `Threads.dfy` | the manager as threads that step through lock, find, lock, unlock, read, write, unlink and free |
| `ThreadInv.dfy`, `ThreadSteps.dfy`, `ThreadEffects.dfy` | the invariant of all interleavings and its preservation |
| `ThreadResults.dfy`, `ThreadIds.dfy`, `ThreadProgress.dfy`, `ThreadWitness.dfy` | linearizability, memory safety; no leaks, ids and their order; no deadlock, termination; concrete runs |
| `Ring.dfy`, `QueueThreads.dfy`, `QueueResults.dfy` | the bounded queue in memory, its threads with condition variables, and what their calls return |
| `Wire.dfy`, `Layout.dfy`, `Codec.dfy`, `Stream.dfy` | the byte format, where its fields are, the serializers and deserializers over a cursor, framing over a chunked stream |
| `Clients.dfy`, `Handlers.dfy`, `Server.dfy` | the client table, the request handlers on values, and the server in memory with its client threads |
| `Requests.dfy` | what each message does to games and client table |
| `DrawVotes.dfy`, `WinVotes.dfy`, `Departures.dfy`, `Lobby.dfy` | results that span handlers, manager, table and wire |

The manager exists three times: as functions on a list of games (`ManagerSpec`), as a class over
heap nodes run by one thread (`GameList`), and as an interleaving of thread steps over a shared
heap (`ManagerThreads`). The second is proved equal to the first call by call. The third refines
the first in every interleaving: each call enters a log exactly once between its invocation and
its return, and the log is a run of the first that explains every reply and the list.

Calls and requests are described twice. Functions such as `OnGame`, `Apply` and `Handle` compute the
next state, and the methods are proved equal to them. The laws in `Laws.dfy`, `RunLaws.dfy`,
`WinVotes.dfy`, `Requests.dfy` and `QueueResults.dfy` say what these functions mean by seats, cells,
slots and results alone: when a call succeeds, what it changes and what it leaves.

## What the source does that a reader may not expect

Each of these is proved; the lemmas named say exactly when it happens.

- `game_manager_create_game` reads `g->id` after it has released `gm->lock` and without the lock of
  the game. Another thread can free the node before that. `CreatorReadsFreedNode` is such a run:
  while the creator pauses, a second thread joins, accepts the join, takes the game over with a
  mid-game vote and leaves. `CrashesExactly` shows that no other step in any run touches a freed
  node, and `CrashIsADeletion` that this one does exactly when a leave has taken the new game off
  the list since the create took effect and is done with the node.
- Post-game flags are not cleared when a game ends, so an answer given earlier counts for a later
  draw (`DrawVoteIsFreshExactly`; an instance is `StaleVoteSettlesDraw`).
- A vote of O takes effect before the game has ended, and settles a game that O has given up
  (`VoteBeforeTheEnd`).
- A reject after the owner left, and a no to a draw after the player who said yes left, leave a
  listed game that nobody sits in (`VacantExactly`, `StrandsExactly`; instances are
  `StrandedGameExists` and `AbandonedVoteStrands`).
- A client that leaves or disconnects need not give back all its seats: those in games other than
  the recorded one stay taken, unless they are X seats, and so does the X seat of game 0, since ids
  start at 0 and the cleanup is called with 0 as the game to spare (`DisconnectFreesExactly`,
  `LeaveFreesExactly`, `CleanupSparesGameZero`).
- The list need not be in the order of the ids (`InterleavingInOrderExactly`,
  `UndisturbedRunIsInOrder`; an instance is `ListOrderNeedNotFollowIds`).
- `current_game_id` is an `int`; the id 2^32 - 1 is stored as -1, which means no game
  (`CurrentGameIsRecorded`).

The payload of a leave request is empty, so the id it stands for when the client is recorded in no
game is 0, that of the cleared message.

## Assumptions

- Real sockets differ from -1, the value of an empty seat. Where a result needs it, it is a
  hypothesis (`RealSocket`, `RealSockets`, `Sensible`).
- At most 2^32 games are created. Only the results about unique ids and those that build on them
  need it; linearizability, memory safety and progress do not.
- The operating system does not hand out a socket that is still in use.
- The guard and the join of the join handler count as one step.

## Model

| member | source | states |
|---|---|---|
| GameRules.VerdictMeaning | server/src/game.c:19-56 | the verdict on a board, said without the order of the scan: a win for the only owner of a line, a draw or undecided exactly when nobody owns a line, by whether a cell is blank |
| GameRules.LinesOfBoard | server/src/game.c:22-43 | the eight lines of the scan are the rows, the columns and the two diagonals |
| GameRules.ScanLine | server/src/game.c:22-43 | one line of the scan decides exactly when its three cells are equal and not blank |
| GameRules.FindBlank | server/src/game.c:45-52 | the search for a blank cell finds one exactly when there is one |
| GameRules.CheckLines | server/src/game.c:22-43 | the loops over rows, columns and diagonals return the mark of the first complete line |
| GameRules.CheckWinner | server/src/game.c:19-56 | the loops of the winner check compute the verdict, and report the game finished exactly when it is decided |
| GameLife.NewGameOk | server/src/game.c:207-226 | a new game satisfies the game invariant |
| GameLife.CallKeepsGameOk | server/src/game.c:264-551 | every call keeps the invariant of a game: seats, board, turn and results fit the state WAITING, IN_PROGRESS or FINISHED |
| GameLife.MoveReport | server/src/game.c:361-381 | an accepted move reports a win exactly for the mover who now owns a line, never with a line of the other, and a draw only on X's move with a full board |
| GameLife.AtMostNine | server/src/game.c:361-369 | moves on distinct cells are at most nine |
| GameLife.CallKeepsHonest | server/src/game.c:361-381 | every call keeps the board equal to the replay of the moves since the last reset, alternating and on distinct cells |
| GameLife.VoteBoard | server/src/game.c:72-140 | a vote either clears the board and says so, or leaves board and turn alone |
| GameLife.CallKeepsSeatsDistinct | server/src/game.c:280-328 | under the guard of the join handler no call seats a socket twice in one game |
| GameLife.LeaveClearsSocket | server/src/game.c:406-421 | a leave succeeds exactly for a seated socket, removes it from the game altogether, moves nobody else, and leaves the game vacant exactly when it was the last occupant |
| GameLife.VacantExactly | server/src/game.c:317-328 | the only other calls that empty a game are a reject after the owner left, and a no to a draw after the player who said yes left |
| GameLife.DrawVoteIsFreshExactly | server/src/game.c:72-77 | the first answer to a draw settles it exactly when the other seat still carries an answer from before: the flags are never cleared when a game ends |
| GameLife.StaleVoteSettlesDraw | server/src/game.c:524-539 | a concrete game in which that happens |
| GameLife.VoteBeforeTheEnd | server/src/game.c:517-543 | in a game without results, ended or not, a vote of X is only noted, while a vote of O acts at once: yes opens the game for O alone on a blank board, no finishes it without results |
| GameLife.PlayThrough | server/src/game.c:351-381 | every alternating series of distinct cells without a line can be played, and nine of them end as a draw |
| ManagerSpec.IndexOf | server/src/game.c:246-250 | a lookup finds the first game with the id, or none |
| ManagerSpec.RunKeepsOk | server/src/game.c:264-385 | after every run of calls every listed game satisfies the game invariant |
| ManagerSpec.RunIsHonest | server/src/game.c:361-381 | after every run every board is the replay of the moves accepted since its last reset |
| ManagerSpec.RunReportsHonestly | server/src/game.c:351-381 | in every run a reported move came from the socket in the seat on turn and added one mark for it, a reported winner is the player who just moved and the only one with a line, and a draw is reported on X's move |
| ManagerSpec.RunKeepsSeatsDistinct | server/src/client_handler.c:203-218 | in every run whose joins pass the handler's guard the occupied seats of a game are distinct |
| ManagerSpec.LeaveInEveryRun | server/src/game.c:387-443 | in every such run a leave succeeds exactly for a seated socket, deletes the game exactly when that was its last occupant, and otherwise leaves the game in place without the socket |
| ManagerSpec.StrandsExactly | server/src/game.c:325-328 | one call makes a listed game vacant exactly in the two orphaned situations |
| ManagerSpec.RunHasNoVacantGame | server/src/game.c:406-421 | without such calls no listed game is ever vacant |
| GameLaws.MoveAcceptedExactly | server/src/game.c:350-366 | a move is accepted exactly from the socket in the seat on turn, onto a blank cell inside the board of a game in progress; any other changes nothing |
| GameLaws.MoveWrites | server/src/game.c:368-381 | an accepted move marks its cell for the seat it came from and passes the turn; a reported outcome is also the result both players keep |
| GameLaws.JoinTakesFreeSeat | server/src/game.c:280-293 | a join succeeds exactly in a waiting game with neither O nor a waiting player; it takes the waiting seat under the given name and displaces nobody |
| GameLaws.PendingStays | server/src/game.c:280-291 | a waiting player keeps the waiting seat through every call but a decision and his own leave, and further joins fail |
| GameLaws.DecisionAnswers | server/src/game.c:312-331 | an accept moves the waiting player to the O seat and starts the game, a reject only empties the waiting seat, and with nobody waiting nothing changes |
| GameLaws.RejectedIsOpenAgain | server/src/game.c:325-328 | after a reject the next join succeeds |
| GameLaws.LeaveEmptiesSeat | server/src/game.c:406-417 | a leave empties the seat of the socket and changes nothing else but the name of a waiting player |
| GameLaws.VoteAfterXWon | server/src/game.c:111-140 | after a win of X: his yes settles the vote and leaves him alone as X of an open game with a blank board, his no settles it without a change, the answer of O is only noted |
| GameLaws.VoteAfterOWon | server/src/game.c:111-140 | after a win of O: his yes makes him X of the open game; the rest dually |
| GameLaws.DrawVoteOfX | server/src/game.c:72-109 | the answer of X to a draw is noted if O has not answered; else it settles the draw: both play again on a blank board, the one who goes on gets the game, or nothing changes, and both answers are used up |
| GameLaws.DrawVoteOfO | server/src/game.c:72-109 | the answer of O, dually |
| GameLaws.StrangersHaveNoVote | server/src/game.c:517-522 | a socket in neither player seat has no vote |
| GameLaws.QueriesOnlyRead | server/src/game.c:473-498 | queries change nothing |
| GameLaws.StateShowsMove | server/src/game.c:553-573 | the state query after a move shows the board with the mark and the other player on turn |
| GameLaws.QueriesShowJoin | server/src/game.c:575-597 | after a join the waiting-socket query names the joiner; after its acceptance the players query names owner and joiner |
| GameLaws.QueriesShowNewOwner | server/src/game.c:245-262 | after O has won and goes on he is the owner |
| RunLaws.CreateAppends | server/src/game.c:207-241 | a create appends one open game with the drawn id, its creator as X and his name, and reports the id if asked |
| RunLaws.UnknownGame | server/src/game.c:252-255 | a call on a game that is not listed fails without a change; the owner query answers -1 |
| RunLaws.OnlyThatGame | server/src/game.c:246-250 | any other call than a leave works on the first game with the id and on no other |
| RunLaws.MoveInEveryRun | server/src/game.c:334-385 | in every guarded run exactly the right moves are accepted, and a refused one changes no game |
| RunLaws.JoinedRefusesOthers | server/src/game.c:280-284 | in every run a joined game refuses all further joins, without a change, until a decision on it or the leave of the joiner |
| RunLaws.JoinedIsNotShown | server/src/game.c:450-453 | and until then no lobby of the run shows it |
| ManagerWitness.StrandedGameExists | server/src/game.c:325-328 | a run that ends with a listed game nobody sits in: the owner leaves, the joiner is rejected |
| ManagerWitness.AbandonedVoteStrands | server/src/game.c:88-93 | another such run: a draw, O says yes and leaves, X says no |
| ManagerWitness.GameRunIs | server/src/game.c:245-443 | calls on one game that is not emptied are a legal run of the manager |
| ManagerSpec.ApplyKeepsUniqueIds | server/src/game.c:230-237 | calls keep ids distinct, a create if its id is new |
| ManagerSpec.DistinctCreatesAreUnique | server/src/game.c:13-17 | if no two creates drew the same id, listed ids are distinct and come from creates |
| ManagerSpec.ListedExactly | server/src/game.c:387-443 | a created game is listed exactly until a leave takes it off the list |
| ManagerSpec.KeepsOrderExactly | server/src/game.c:230-237 | a call keeps the list in the order of the ids exactly when it does not append behind a larger or equal one |
| ManagerSpec.RunInOrderExactly | server/src/game.c:230-237 | the list is in order throughout a run exactly when no create of the run does that |
| ManagerSpec.LobbyIsFirstTen | server/src/game.c:450-467 | the lobby shows the first ten joinable games in list order |
| ManagerSpec.LobbyShows | server/src/game.c:450-467 | a waiting game with neither O nor a waiting player is in the lobby at the place given by the number of such games before it, if that is below ten, with its id, state and owner |
| ManagerSpec.LobbyShowsOnlyOpen | server/src/game.c:452-453 | every entry of the lobby is of such a game |
| ManagerSpec.LobbyAgreesWithJoin | server/src/game.c:280-294 | a join succeeds exactly on a waiting game with neither O nor a waiting player, which are the games the lobby scan accepts; then only its waiting seat is taken, and on any other game nothing changes |
| GameList.Node.constructor | server/src/game.c:207-226 | the node of a new game |
| GameList.Node.Join | server/src/game.c:280-293 | in place, what the join does to the game |
| GameList.Node.Decide | server/src/game.c:312-331 | in place, what the answer to a join does to the game |
| GameList.Node.Finalize | server/src/game.c:58-70 | in place, state and results of a decided game |
| GameList.Node.Play | server/src/game.c:351-384 | in place, a move: rejected without change or placed, turn passed, outcome reported |
| GameList.Node.Leave | server/src/game.c:406-417 | in place, frees the seat of a socket |
| GameList.Node.Reset | server/src/game.c:79-87 | clears the nine cells in two loops and resets turn, results and state |
| GameList.Node.DrawVote | server/src/game.c:72-109 | in place, the vote after a draw |
| GameList.Node.WinVote | server/src/game.c:111-140 | in place, the vote in a game that is not drawn |
| GameList.Node.PostGame | server/src/game.c:517-547 | in place, a vote recorded and resolved |
| GameList.GameManager.constructor | server/src/game.c:144-154 | the empty list |
| GameList.GameManager.CreateGame | server/src/game.c:199-243 | draws the next id modulo 2^32 and appends the new game |
| GameList.GameManager.Append | server/src/game.c:230-237 | head, tail and next again represent the list, one node longer |
| GameList.GameManager.Appended | server/src/game.c:230-237 | linking behind the last node keeps the list well formed |
| GameList.GameManager.Find | server/src/game.c:246-250 | the walk along next stops at the first node with the id, or at null |
| GameList.GameManager.GetOwnerSocket | server/src/game.c:245-262 | equals the atomic call, -1 for a missing game |
| GameList.GameManager.JoinGame | server/src/game.c:264-294 | equals the atomic call on the listed games |
| GameList.GameManager.JoinDecision | server/src/game.c:296-332 | equals the atomic call on the listed games |
| GameList.GameManager.Move | server/src/game.c:334-385 | equals the atomic call on the listed games |
| GameList.GameManager.FindWithPrev | server/src/game.c:391-397 | the walk that also keeps the predecessor |
| GameList.GameManager.Unlink | server/src/game.c:423-432 | takes exactly one node out; head, tail and next represent the rest |
| GameList.GameManager.Unlinked | server/src/game.c:423-432 | bypassing node i keeps the list well formed |
| GameList.GameManager.LeaveNode | server/src/game.c:406-439 | frees a seat, and removes the node exactly when the game became vacant |
| GameList.GameManager.LeaveGame | server/src/game.c:387-443 | equals the atomic call: the emptied game and no other disappears |
| GameList.GameManager.ListGames | server/src/game.c:445-471 | fills the caller's buffer with the lobby |
| GameList.GameManager.GetPlayers | server/src/game.c:473-498 | equals the atomic call |
| GameList.GameManager.PostGameDecision | server/src/game.c:500-551 | equals the atomic call on the listed games |
| GameList.GameManager.GetGameState | server/src/game.c:553-573 | equals the atomic call |
| GameList.GameManager.GetWaitingSocket | server/src/game.c:575-597 | equals the atomic call |
| GameList.GameManager.CollectNode | server/src/game.c:163-168 | one node of the scan: its id is stored if the socket owns the game |
| GameList.GameManager.CollectOwned | server/src/game.c:158-170 | the scan into the buffer of 128 ids |
| GameList.GameManager.LeaveEach | server/src/game.c:172-176 | the loop of leaves |
| GameList.GameManager.CleanupCreatorGames | server/src/game.c:156-177 | both loops together, on the linked list |
| CleanupSpec.OwnedIdsAreFirst | server/src/game.c:163-169 | the scan collects the first min(128, n) owned games other than the spared one |
| CleanupSpec.CleanupIsExact | server/src/game.c:156-177 | exactly the collected games lose their X seat, those left vacant disappear, all others stay in order |
| CleanupSpec.CleanupLeavesNothing | server/src/game.c:156-177 | with at most 128 games to clean the socket owns nothing but the spared game afterwards |
| CleanupSpec.CleanupSparesGameZero | server/src/game.c:164-165 | sparing id 0 does not mean sparing nothing: game 0 stays as it is |
| ThreadResults.ActionKeepsInv | server/src/game.c:199-597 | every step of every thread keeps the invariant that ties list, locks, heap, log and what each thread knows |
| ThreadResults.ReachableInv | server/src/game.c:199-597 | the invariant holds in every state of every interleaving of any number of threads |
| ThreadResults.RunIsAtomic | server/src/game.c:199-597 | in every interleaving the listed games and all replies are those of one atomic run |
| ThreadResults.Linearizable | server/src/game.c:199-597 | each call takes effect exactly once between its invocation and its return, with the reply it returns |
| ThreadResults.ConsistentSnapshot | server/src/game.c:445-471 | what a list call returns is the lobby of the whole list at one instant, although games are locked one at a time |
| ThreadResults.EveryInterleavingIsHonest | server/src/game.c:334-385 | game invariant and honest boards in every interleaving |
| ThreadResults.EveryInterleavingReportsHonestly | server/src/game.c:351-381 | in every interleaving a reported move came from the seat on turn, and its outcome is honest |
| ThreadResults.EveryInterleavingMovesRight | server/src/game.c:334-385 | in every guarded interleaving exactly the right moves are accepted |
| ThreadResults.EveryInterleavingRefusesOthers | server/src/game.c:280-284 | in every interleaving a joined game refuses all further joins until a decision or the leave of the joiner takes effect |
| ThreadResults.EveryInterleavingSeatsOnce | server/src/client_handler.c:203-218 | distinct seats in every interleaving whose joins took effect with a foreign socket |
| ThreadResults.EveryInterleavingLeavesRight | server/src/game.c:387-443 | what each leave reports and does, in every such interleaving |
| ThreadResults.EveryInterleavingIsOccupied | server/src/game.c:406-421 | no vacant game in every interleaving without the two orphaned calls |
| ThreadResults.AddressesAreProtected | server/src/game.c:257-260 | a thread that keeps a node's address holds gm->lock or the node's lock, except a creator about to report the id |
| ThreadResults.FreedNodeIsForgotten | server/src/game.c:423-436 | when a node is freed its lock is free and no other thread keeps its address, with that exception |
| ThreadResults.CrashesExactly | server/src/game.c:237-241 | no step touches a freed or null node but a creator's read of the id after releasing gm->lock, when the node is gone |
| ThreadResults.CrashNeedsALeave | server/src/game.c:237-241 | the node is gone only after a successful leave on the new id |
| ThreadIds.NothingLeaks | server/src/game.c:423-436 | every node in the heap is in the list or in the hands of exactly one thread that will link or free it |
| ThreadIds.CreatorCrashesExactly | server/src/game.c:237-241 | the creator's read fails exactly when its node is out of the list by then and nobody is still freeing it |
| ThreadIds.FreeLockFreesNothing | server/src/game.c:423-441 | while gm->lock is free no thread is between unlinking and freeing |
| ThreadIds.CrashIsADeletion | server/src/game.c:237-241 | with at most 2^32 creates it fails exactly when, after the create took effect, a leave took the new game off the list, so that a lookup would miss, and that leave is done with the node |
| ThreadWitness.CreatorReadsFreedNode | server/src/game.c:237-241 | a reachable state in which it happens |
| ThreadResults.UniqueIdsInEveryRun | server/src/game.c:208-237 | with at most 2^32 creates all listed and in-flight ids are distinct and below the counter |
| ThreadWitness.ListOrderNeedNotFollowIds | server/src/game.c:208-237 | a reachable list with ids 1, 0 |
| ThreadIds.InterleavingInOrderExactly | server/src/game.c:208-237 | in any interleaving the list is in the order of the ids all the time exactly when no create takes effect while a game with a larger or equal id is last |
| ThreadIds.UndisturbedRunIsInOrder | server/src/game.c:208-237 | it is, if no thread draws an id while another is between draw and link |
| ThreadProgress.LockOrder | server/src/game.c:245-262 | locks go manager before game, one game at a time, and nobody waits for gm->lock while holding a game |
| ThreadProgress.NoDeadlock | server/src/game.c:245-471 | in every reachable state with an unfinished call some thread can step |
| ThreadProgress.StepsAreBounded | server/src/game.c:199-597 | a schedule without new calls is no longer than a bound computed from the state |
| ThreadProgress.EveryCallEnds | server/src/game.c:199-597 | from every reachable state the calls can be brought to their ends |
| RingQueue.PushAppends | client/src/utils/queue.c:98-100 | a push keeps the ring well formed and appends to its contents, wrap-around included |
| RingQueue.PopRemovesFirst | client/src/utils/queue.c:119-121 | a pop keeps the ring well formed and removes the oldest item |
| RingQueue.Queue.constructor | client/src/utils/queue.c:36-39 | an empty queue of the given capacity |
| RingQueue.Queue.Create | client/src/utils/queue.c:20-23 | capacity 0 is refused |
| RingQueue.Queue.PushTurn | client/src/utils/queue.c:85-104 | one turn of a push: stored exactly when there is room; otherwise nothing changes and it waits or fails |
| RingQueue.Queue.PopTurn | client/src/utils/queue.c:106-125 | one turn of a pop, dually |
| RingQueue.Queue.Push | client/src/utils/queue.c:85-104 | the push with its wait loop: the item is appended to what the queue held when the mutex was last taken; without blocking, or with room, that is what it held at the call |
| RingQueue.Queue.Pop | client/src/utils/queue.c:106-125 | the pop with its wait loop, dually |
| RingQueue.Queue.Size | client/src/utils/queue.c:139-144 | the number of queued items |
| RingQueue.Queue.IsEmpty | client/src/utils/queue.c:146-151 | whether there are none |
| QueueThreads.ActionKeepsInv | client/src/utils/queue.c:85-125 | every step, signal and spurious wakeup keeps mutual exclusion, FIFO order and the cover of sleepers |
| QueueThreads.NoLostWakeup | client/src/utils/queue.c:85-125 | in every run pushed items are popped items plus contents in order; while a consumer sleeps and the mutex is free, items are at most the woken consumers yet to run; dually for slots |
| QueueThreads.NobodySleepsOnWork | client/src/utils/queue.c:85-125 | when no thread can move, consumers sleep only on an empty queue and producers only on a full one |
| QueueResults.ActionAnswers | client/src/utils/queue.c:85-125 | every action keeps the queue atomic: the ring holds what the logged calls leave, and what threads have returned or are about to return are the answers of an atomic bounded queue to their logged calls |
| QueueResults.QueueIsAtomic | client/src/utils/queue.c:85-125 | hence in every run each thread gets, in order, exactly the answers due to its calls; no blocking call is refused, and no non-blocking call sleeps |
| QueueResults.EveryAnswerIsDue | client/src/utils/queue.c:119-124 | in every run each answer belongs to one logged call of its thread: a pop got the item at its own place in `popped`, a successful push put its item at its own place in `pushed`, a refusal went to a non-blocking call at a full or empty queue and changed neither queue nor history |
| QueueResults.EveryItemIsHandedOut | client/src/utils/queue.c:119-124 | in every run each popped item is the answer of exactly one pop |
| QueueResults.EveryItemWasPushed | client/src/utils/queue.c:98-103 | in every run each pushed item is that of exactly one push, which succeeded |
| QueueResults.FirstInFirstOut | client/src/utils/queue.c:98-121 | in every run the items stored are those handed out followed by those queued, in order |
| TrisTypes.CopyNameIdempotent | server/src/game.c:213-216 | a copied name is not changed by further copies |
| TrisTypes.CopyStringBytes | server/src/server.c:202-204 | a copied string has the bytes of its source up to the first zero byte or the last place of the buffer, and zeros from there on |
| TrisTypes.SignRoundTrip | common/src/protocol.c:292 | the cast of a number to int and back keeps it; as int it is the same modulo 2^32 |
| WireFormat.NetworkOrder | common/src/protocol.c:17-21 | four bytes whose big-endian value is the number |
| WireFormat.U32Unique | common/src/protocol.c:23-28 | there is one way to write a number in four bytes |
| WireFormat.CodeIffType | common/include/protocol.h:11-28 | type codes and types are inverse tables |
| WireFormat.EncodedSize | common/src/protocol.c:41-388 | every encoding has its type's size, at most 411 |
| WireFormat.DecodeEncode | common/src/protocol.c:41-388 | decoding after encoding is the identity for all payloads, booleans as 0 or 1 |
| WireFormat.EncodeDecode | common/src/protocol.c:41-388 | re-encoding an accepted payload gives its bytes back, except that a nonzero boolean byte becomes 1 |
| WireLayout.BigEndian | common/src/protocol.c:17-28 | a number has its most significant byte first |
| WireLayout.CodesInOrder | common/include/protocol.h:11-28 | the types are numbered from 1 in the order of their declaration, and no other number is a type |
| WireLayout.EncodeLaidOut | common/src/protocol.c:41-388 | every field of every payload is at its offset in the encoding, lists and lobby entries included |
| WireLayout.DecodeReadsLayout | common/src/protocol.c:56-388 | every field of a decoded payload was read from that offset |
| PayloadCodec.Cursor.WriteU8 | common/src/protocol.c:30-33 | one byte appended, cursor advanced by one, bytes behind it untouched |
| PayloadCodec.Cursor.WriteU32 | common/src/protocol.c:17-21 | four bytes appended, cursor advanced by four |
| PayloadCodec.Cursor.CopyIn | common/src/protocol.c:87-88 | a block appended |
| PayloadCodec.Cursor.ReadU8 | common/src/protocol.c:35-39 | the byte under the cursor |
| PayloadCodec.Cursor.ReadU32 | common/src/protocol.c:23-28 | the big-endian number under the cursor |
| PayloadCodec.Cursor.CopyOut | common/src/protocol.c:111-111 | a block read |
| PayloadCodec.SerializeMove | common/src/protocol.c:41-54 | fails exactly when the buffer is too small; otherwise writes the encoding and nothing behind it |
| PayloadCodec.DeserializeMove | common/src/protocol.c:56-66 | accepts exactly the right length and decodes it field by field |
| PayloadCodec.SerializeGameState | common/src/protocol.c:68-92 | fails exactly when the buffer is too small; otherwise writes the encoding and nothing behind it |
| PayloadCodec.DeserializeGameState | common/src/protocol.c:94-113 | accepts exactly the right length and decodes it field by field |
| PayloadCodec.SerializeError | common/src/protocol.c:115-124 | fails exactly when the buffer is too small; otherwise writes the encoding and nothing behind it |
| PayloadCodec.DeserializeError | common/src/protocol.c:126-133 | accepts exactly the right length and decodes it field by field |
| PayloadCodec.SerializeGameList | common/src/protocol.c:135-152 | fails exactly when the buffer is too small; otherwise writes the encoding and nothing behind it |
| PayloadCodec.DeserializeGameList | common/src/protocol.c:154-168 | accepts exactly the right length and decodes it field by field |
| PayloadCodec.SerializeGameStart | common/src/protocol.c:170-183 | fails exactly when the buffer is too small; otherwise writes the encoding and nothing behind it |
| PayloadCodec.DeserializeGameStart | common/src/protocol.c:185-195 | accepts exactly the right length and decodes it field by field |
| PayloadCodec.SerializeGameOver | common/src/protocol.c:197-211 | fails exactly when the buffer is too small; otherwise writes the encoding and nothing behind it |
| PayloadCodec.DeserializeGameOver | common/src/protocol.c:213-223 | accepts exactly the right length and decodes it field by field |
| PayloadCodec.SerializeJoinRequest | common/src/protocol.c:225-239 | fails exactly when the buffer is too small; otherwise writes the encoding and nothing behind it |
| PayloadCodec.DeserializeJoinRequest | common/src/protocol.c:241-251 | accepts exactly the right length and decodes it field by field |
| PayloadCodec.SerializeJoinDecision | common/src/protocol.c:253-265 | fails exactly when the buffer is too small; otherwise writes the encoding and nothing behind it |
| PayloadCodec.DeserializeJoinDecision | common/src/protocol.c:267-276 | accepts exactly the right length and decodes it field by field |
| PayloadCodec.SerializeLobby | common/src/protocol.c:278-296 | fails exactly when the buffer is too small; otherwise writes the encoding and nothing behind it |
| PayloadCodec.DeserializeLobby | common/src/protocol.c:298-313 | accepts exactly the right length and decodes it field by field |
| PayloadCodec.SerializeStatusChange | common/src/protocol.c:315-330 | fails exactly when the buffer is too small; otherwise writes the encoding and nothing behind it |
| PayloadCodec.DeserializeStatusChange | common/src/protocol.c:332-342 | accepts exactly the right length and decodes it field by field |
| PayloadCodec.SerializePostGameOptions | common/src/protocol.c:344-357 | fails exactly when the buffer is too small; otherwise writes the encoding and nothing behind it |
| PayloadCodec.DeserializePostGameOptions | common/src/protocol.c:359-368 | accepts exactly the right length and decodes it field by field |
| PayloadCodec.SerializeSetUsername | common/src/protocol.c:370-379 | fails exactly when the buffer is too small; otherwise writes the encoding and nothing behind it |
| PayloadCodec.DeserializeSetUsername | common/src/protocol.c:381-388 | accepts exactly the right length and decodes it field by field |
| PayloadCodec.Serialize | common/src/protocol.c:401-465 | the switch of the sender, all types |
| PayloadCodec.Deserialize | common/src/protocol.c:574-639 | the switch of the receiver, all types |
| MessageStream.ParseFrame | common/src/protocol.c:509-649 | a receive on a frame, whatever follows, yields its message and uses up exactly its bytes |
| MessageStream.StreamRoundTrip | common/src/protocol.c:481-570 | repeated receives on the frames of any series of messages yield the series, whatever follows it |
| MessageStream.FramesAppend | common/src/protocol.c:481-504 | the bytes of a longer series are one more frame at the end |
| MessageStream.BrokenStream | common/src/protocol.c:514-529 | of a series that broke off inside a frame a receiver makes its whole messages |
| MessageStream.SendAll | common/src/protocol.c:390-507 | successive sends put exactly the frames of the series on the socket, or whole frames and a part of the next one |
| MessageStream.Exchange | common/src/protocol.c:390-649 | both ends together, with any chunks on either side: what is handled are the first messages sent, in order, and all of them if nothing failed |
| MessageStream.StreamsAreUnambiguous | common/src/protocol.c:481-570 | two series with the same bytes are the same, up to the value of true booleans |
| MessageStream.AcceptedIsFrame | common/src/protocol.c:531-552 | only frames are accepted: the bytes used up are the frame of the returned message, apart from a boolean byte |
| MessageStream.SendFully | common/src/protocol.c:481-504 | the send loop ends, and has handed over all bytes or, on a transport failure, a proper prefix |
| MessageStream.ReceiveFully | common/src/protocol.c:514-529 | the receive loop ends, and has the next bytes of the stream, unless the stream ended or the transport failed |
| MessageStream.SendParts | common/src/protocol.c:481-504 | header, then payload unless empty |
| MessageStream.BuildFrame | common/src/protocol.c:395-479 | payload and header together are the frame; the 1024-byte buffer always suffices |
| MessageStream.SendMessage | common/src/protocol.c:390-507 | a send appends exactly one frame; it fails only on an unknown type, sending nothing, or on a transport failure |
| MessageStream.ReceiveMessage | common/src/protocol.c:509-649 | for any chunking, a receive does to the stream what the parser on whole streams says, bad magic, version, length, type and payload included |
| MessageStream.ReceiveNext | common/src/protocol.c:509-649 | one receive inside a message loop |
| MessageStream.ReceiveLoop | server/src/server.c:157-167 | the message loop ends and has handled the messages of the stream in order, all of them unless the transport failed |
| ClientTable.AddedMeaning | server/src/server.c:25-44 | a client is refused exactly when all 100 slots are taken; otherwise one free slot is filled, all others are kept, and the socket is connected |
| ClientTable.RemovedMeaning | server/src/server.c:46-58 | a removal disconnects exactly that socket and touches no other slot |
| ClientTable.AddThenRemove | server/src/server.c:25-58 | coming and going leaves every active slot and the count as they were |
| ClientTable.SetPlayingCommutes | server/src/client_handler.c:46-59 | marks of different sockets can be set in either order |
| ClientTable.LookupsRead | server/src/client_handler.c:32-44 | name, recorded game and playing flag of a connected client are those of its slot |
| ClientTable.LookupsOfStranger | server/src/server.c:193-215 | a socket without a slot is called Unknown, plays nothing and is recorded in no game |
| ClientTable.SetPlayingMeaning | server/src/client_handler.c:46-59 | a mark is written into the slot of the client alone; whoever is marked counts as playing, whoever is unmarked does not, and nobody else is affected |
| ClientTable.MarkedMeaning | server/src/client_handler.c:318-327 | the last loop of the join decision marks both players' slots and no other |
| ClientTable.NewClientIsGuest | server/src/server.c:30-40 | a new client gets the first free slot, is called Guest, plays nothing and is recorded in no game |
| ClientTable.RenamedMeaning | server/src/client_handler.c:535-546 | a new name goes into the slot of the client and nowhere else |
| ClientTable.CurrentGameIsRecorded | server/src/client_handler.c:46-59 | the recorded game id reads back, except that id 2^32 - 1 reads as no game |
| ClientTable.Clients.constructor | server/src/server.c:67-72 | a hundred free slots |
| ClientTable.Clients.AddClient | server/src/server.c:25-44 | equals the function on table values; the counter is the number of active slots |
| ClientTable.Clients.RemoveClient | server/src/server.c:46-58 | equals the function on table values |
| ClientTable.Clients.Find | server/src/client_handler.c:552-559 | the scan stops at the first active slot of the socket |
| ClientTable.Clients.ClientIsPlaying | server/src/client_handler.c:32-44 | whether some active slot of the socket plays |
| ClientTable.Clients.ClientSetPlaying | server/src/client_handler.c:46-59 | equals the function on table values |
| ClientTable.Clients.GetCurrentGame | server/src/client_handler.c:551-560 | the recorded game |
| ClientTable.Clients.FindUsername | server/src/server.c:193-215 | the stored name, or the default |
| ClientTable.Clients.SetUsername | server/src/client_handler.c:535-546 | equals the function on table values |
| ClientTable.Clients.MarkPlayers | server/src/client_handler.c:318-327 | the loop that marks both players in every slot |
| Handlers.CallKeepsGamesOk | server/src/game.c:264-551 | every manager call keeps: well-formed games, distinct seats, distinct ids below the counter, copied names |
| Handlers.JoinKeepsWorldOk | server/src/client_handler.c:191-227 | the guard of the join handler suffices for distinct seats |
| Handlers.HandleKeepsWorldOk | server/src/client_handler.c:85-124 | every request keeps the server invariant |
| Handlers.RunKeepsWorldOk | server/src/client_handler.c:85-124 | every run of requests with at most 2^32 of them keeps it |
| DrawVotes.FirstVote | server/src/client_handler.c:425-450 | the first answer to a draw is recorded; a no also frees seat and mark |
| DrawVotes.SecondYesYes | server/src/client_handler.c:457-526 | both go on: blank board, both marked |
| DrawVotes.SecondYesAlone | server/src/client_handler.c:457-486 | the other has left: the game is handed to this player, who waits |
| DrawVotes.SecondNoOther | server/src/client_handler.c:446-486 | the other goes on and is handed the game |
| DrawVotes.SecondNoNo | server/src/client_handler.c:446-466 | neither goes on: the game disappears |
| DrawVotes.DrawVotesAreConfluent | server/src/client_handler.c:425-533 | both orders of the two answers give the same games and client table, as agreed |
| WinVotes.WinnerGoesOn | server/src/client_handler.c:457-486 | after a win: the yes of the winner opens the game for him alone and marks him as playing it; no other game or slot changes |
| WinVotes.LoserGoesOn | server/src/client_handler.c:425-444 | the yes of the loser is noted in the game and changes nothing else |
| WinVotes.NoAfterWin | server/src/client_handler.c:446-466 | the no of either player gives up his seat and his mark; the game stays finished for the other, or is deleted if there is none |
| Departures.OwnedAfterLeave | server/src/game.c:406-421 | after a leave the caller owns exactly the other games it owned |
| Departures.DepartureFreesExactly | server/src/game.c:156-177 | a leave of the recorded game and the cleanup give back every seat exactly when each seat is in the recorded game or is X of another game than game 0, and at most 128 games are to clean up |
| Departures.DisconnectFreesExactly | server/src/server.c:169-185 | the same for a disconnect |
| Departures.LeaveFreesExactly | server/src/client_handler.c:548-581 | the same for a leave request, which also clears the record |
| Departures.DepartureLeavesRecorded | server/src/game.c:387-443 | a departure empties the client's seat in the recorded game, and deletes the game exactly if it was the last one taken |
| Departures.UnseenGameStays | server/src/game.c:156-177 | a game a departure does not look at stays as it is |
| Departures.LeaveFreesTheClient | server/src/client_handler.c:548-581 | after a leave request the client has no seat in the recorded game and owns none but possibly game 0, if at most 128 games were to clean up |
| Departures.WaitingSeatSurvivesDisconnect | server/src/server.c:169-185 | a seat held while waiting to be accepted elsewhere is not given back on disconnect |
| Departures.AcceptedOwnsOneGame | server/src/client_handler.c:270-271 | whoever accepts a join owns at most the accepted game afterwards |
| LobbyMessages.BuildLobbyMessage | server/src/client_handler.c:12-30 | the message built in the loop: the snapshots, then zero entries |
| LobbyMessages.LobbySurvivesTheWire | server/src/client_handler.c:12-30 | the client decodes exactly the first ten joinable games with ids, state, owner names and count |
| Requests.CreateMessage | server/src/client_handler.c:143-177 | CREATE_GAME: nothing for a playing client; any other gets a new open game at the end of the list, with the next id, under his name, and is marked as playing it |
| Requests.JoinMessage | server/src/client_handler.c:191-219 | JOIN_GAME: the client takes the waiting seat, under his name, exactly if he does not play, the game is waiting, X is somebody else and both other seats are empty; otherwise nothing changes |
| Requests.MoveMessage | server/src/client_handler.c:342-350 | MOVE: a mark in cell 3 * row + col of the named game, exactly if the client is on turn, the game in progress and the cell blank; no other game, seat or slot changes, and otherwise nothing does |
| Requests.DecisionMessage | server/src/client_handler.c:93-96 | JOIN_DECISION: a flag other than 0 gives the waiting player the O seat, starts the game, marks both players and vacates the other games of the sender only; flag 0 only empties the waiting seat; with nobody waiting nothing changes |
| Requests.PostGameMessage | server/src/client_handler.c:97-101 | POST_GAME_OPTIONS: the vote of the client in the named game, a yes exactly for a flag other than 0 |
| Requests.WonVoteMessage | server/src/client_handler.c:97-101 | POST_GAME_OPTIONS after a win: a flag other than 0 from the winner opens the game for him, flag 0 costs a player seat and mark |
| Requests.NameMessage | server/src/client_handler.c:102-104 | SET_USERNAME: the name in the client's slot becomes the one sent, up to its first zero byte, and nothing else changes |
| Requests.RecordedMeaning | server/src/client_handler.c:551-560 | the game recorded for a client is the one its slot names, -1 standing for none, and takes precedence over the id in a leave request |
| Requests.LeaveMessage | server/src/client_handler.c:111-113 | LEAVE_GAME: the client loses its seat in the recorded game, or else in game 0, and the games it owns, and is marked as playing none; what happens to every other game and slot |
| Requests.DisconnectLaw | server/src/server.c:169-185 | the same for the end of a connection, which also frees the slot |
| Requests.OtherMessages | server/src/client_handler.c:108-122 | messages of all other types change nothing |
| ServerState.ServedNext | server/src/server.c:157-167 | one more message of a client thread is received in the state that its earlier ones have led to |
| ServerState.Server.constructor | server/src/server.c:67-78 | no games and no clients |
| ServerState.Server.HandleCreateGame | server/src/client_handler.c:143-177 | nothing for a playing client; otherwise a new game under the client's name, and the client marked with it |
| ServerState.Server.HandleJoinRequest | server/src/client_handler.c:191-227 | nothing for a playing client or the owner of the game; otherwise the join under the client's name |
| ServerState.Server.HandleJoinDecision | server/src/client_handler.c:252-340 | an answer without a waiting joiner changes nothing; an accepted one also vacates the other games of whoever answered and marks both players |
| ServerState.Server.StartGame | server/src/client_handler.c:273-327 | marks the players of the accepted game |
| ServerState.Server.HandlePostGameDecision | server/src/client_handler.c:425-533 | a refused vote changes nothing; a no also frees mark and seat; once decided, whoever is left in the game is marked |
| ServerState.Server.AfterVote | server/src/client_handler.c:446-466 | the part after a recorded vote |
| ServerState.Server.Settle | server/src/client_handler.c:465-530 | the part after a decision |
| ServerState.Server.MarkRemaining | server/src/client_handler.c:467-489 | marks whoever is left |
| ServerState.Server.HandleLeaveGame | server/src/client_handler.c:548-581 | leaves the recorded game or else the given one, vacates owned games, clears the mark |
| ServerState.Server.HandleSetUsername | server/src/client_handler.c:535-546 | the name stored in the client's slot, cut to the field |
| ServerState.Server.HandleListGames | server/src/client_handler.c:126-141 | sends exactly the frame of the lobby and changes nothing |
| ServerState.Server.HandleEvent | server/src/client_handler.c:85-124 | in place, the state after a request |
| ServerState.Server.HandleMessage | server/src/client_handler.c:85-124 | in place, the state after the message, which the laws of the module Requests describe type by type |
| ServerState.Server.Connect | server/src/server.c:139-142 | a slot for the client, or none |
| ServerState.Server.Disconnect | server/src/server.c:169-185 | the end of a client thread |
| ServerState.Server.ServeMessages | server/src/server.c:157-167 | the loop of a client thread |
| ServerState.Server.HandleClient | server/src/server.c:133-191 | a client thread run alone: connection, all requests of its byte stream in order for any chunking, disconnection |

## Left out

- `game_manager_destroy`, `queue_destroy`, the `destroyed` flag of the queue and the shutdown path: they rely on callers having stopped.
- Sockets, `accept`, signals and the creation of threads: the transport is a byte sequence with chunk sizes, ends and failures of its own choosing.
- The ncurses client, `client/src/network/network.c`, configuration, logging and message texts.
- Messages that handlers send besides the lobby: they change no state, and handlers ignore whether they arrive; `broadcast_lobby_update` is the lobby of `HandleListGames` sent to each idle client.
- Allocation failure: allocations succeed, as in the paths modelled.
- Handlers interleaved with each other: each handler is modelled run alone, since it is not atomic in the source; only manager calls and queue operations are modelled in all interleavings.
- `cleanup_creator_games` interleaved with other calls: its scan reads the X seat without the lock of the game, so it is modelled run alone; the leaves it makes are manager calls like any other.
- Grain of the interleaving model: one step is taking or releasing a lock, looking at a node, reading the game under its lock, or writing it back together with the list pointers the call changes under `gm->lock`; single assignments under held locks are not split.
- Reuse of freed addresses: addresses are never reused, so every stale pointer is recognised; a crash stands for any access to freed memory.
- Fairness: progress is stated as absence of deadlock and a bound on steps, not as fairness between threads.
- `Game.winner_stays`, which the source never reads, and the fields of `Message` that a type does not use.
- Names longer than their field: `strncpy` from an unterminated 32-byte user name reads on into the cleared rest of the message, and is modelled as stopping after its 32 bytes.
- `usernames` as text: names are byte sequences ended by a zero byte.
- `MAX_GAMES`, which the source defines and does not use.
- Agreement between the client table and the seats of games: the source does not keep it.
- PushTurn: one turn under the mutex; the wait loop around it is `Push`, in all interleavings `QueueThreads`.
- PopTurn: one turn under the mutex; the wait loop around it is `Pop`, in all interleavings `QueueThreads`.
- Push: a blocking call that has not found room after a given number of wakeups is reported as waiting, since in the source it may wait for ever.
- Pop: likewise for a blocking call that has not found an item.
- HandleMessage: does not send the replies and errors of the handlers, which change no state; a list request alone is `HandleListGames`.
- WonVoteMessage: won games only; `PostGameMessage` reduces all other votes to `VoteHandled`, which `DrawVotesAreConfluent` describes after a draw, and `VoteBeforeTheEnd` says what a vote without a result does to the game.
- CrashNeedsALeave: one direction only; the exact condition is `CrashIsADeletion`.
- LeaveFreesTheClient: one direction only; the exact condition is `LeaveFreesExactly`.
- WaitingSeatSurvivesDisconnect: one kind of seat only; the exact condition is `DisconnectFreesExactly`.
- ListOrderNeedNotFollowIds: one list only; the exact condition is `InterleavingInOrderExactly`.
- ReachableInv: states the invariant for the steps of the model, in which statements under held locks are grouped as described above.
