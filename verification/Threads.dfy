/** The game manager as it runs: any number of threads stepping through manager calls over a
    heap of linked games, with `gm->lock` and one lock per game taken hand over hand.

    One step of a thread is what it does between two points at which others may run: taking or
    releasing one lock, looking at one list node, reading the game it holds into locals, or
    writing it back together with the list pointers the call changes. `order`, `log`, `since`,
    `lin` and the positions in search phases are history: no step depends on them. */
module ManagerThreads {
  import opened TrisTypes
  import opened GameRules
  import opened ManagerSpec

  type Tid = nat

  /** An address. Addresses are never reused, so a stale pointer is always recognisable. */
  type Ptr = nat

  datatype Cell = Cell(game: Game, next: Option<Ptr>, lock: Option<Tid>)

  datatype Phase =
    // create_game
    | Drawing                                            // no node yet
    | Fresh(p: Ptr)                                      // node initialised; wants gm->lock
    | Linking(p: Ptr)                                    // holds gm->lock
    | Linked(p: Ptr)                                     // holds gm->lock, node appended
    | Reporting(p: Ptr)                                  // gm->lock released; about to read g->id
    // calls that look a game up
    | Entering                                           // wants gm->lock
    | Searching(i: nat, prev: Option<Ptr>, cur: Option<Ptr>)
    | Found(i: nat, prev: Option<Ptr>, p: Ptr)           // holds gm->lock, wants the game's lock
    | Both(p: Ptr)                                       // holds both locks
    | Inside(p: Ptr)                                     // holds the game's lock only
    | Loaded(p: Ptr, g: Game)
    | Written(p: Ptr, reply: Reply)
    // leave_game keeps gm->lock to the end
    | LeaveInside(i: nat, prev: Option<Ptr>, p: Ptr)     // holds both locks
    | LeaveLoaded(i: nat, prev: Option<Ptr>, p: Ptr, g: Game)
    | Kept(p: Ptr, reply: Reply)                         // game stays in the list
    | Unlinked(p: Ptr, reply: Reply)                     // game is out of the list
    | Freeing(p: Ptr, reply: Reply)                      // game unlocked; about to be freed
    | Leaving(reply: Reply)                              // holds gm->lock only, on the way out
    // list_games keeps gm->lock to the end
    | ScanAt(i: nat, cur: Option<Ptr>, acc: seq<Snapshot>)
    | ScanLocked(i: nat, p: Ptr, acc: seq<Snapshot>)     // holds both locks
    | ScanRead(i: nat, p: Ptr, acc: seq<Snapshot>)       // holds both locks
    | ScanNext(i: nat, p: Ptr, acc: seq<Snapshot>)
    | ScanDone(i: nat, acc: seq<Snapshot>)
    // end of every call
    | Done(reply: Reply)
    | Crashed                                            // touched a freed or null node

  datatype Thread =
    | Idle
    | Running(op: Op, since: nat, lin: Option<nat>, phase: Phase)

  datatype State = State(
    gmLock: Option<Tid>, head: Option<Ptr>, tail: Option<Ptr>,
    heap: map<Ptr, Cell>, brk: Ptr, drawn: nat, threads: seq<Thread>,
    order: seq<Ptr>, log: seq<Entry>)

  function Start(n: nat): State {
    State(None, None, None, map[], 0, 0, seq(n, _ => Idle), [], [])
  }

  // ---- steps ----

  function Goto(s: State, t: Tid, phase: Phase): State
    requires t < |s.threads| && s.threads[t].Running?
  {
    s.(threads := s.threads[t := s.threads[t].(phase := phase)])
  }

  /** A step at which the call takes effect. */
  function Effect(s: State, t: Tid, newId: u32, reply: Reply, phase: Phase): State
    requires t < |s.threads| && s.threads[t].Running?
  {
    var th := s.threads[t];
    s.(threads := s.threads[t := th.(phase := phase, lin := Some(|s.log|))],
       log := s.log + [Entry(t, th.op, newId, reply)])
  }

  /** Allocates and fills the node and draws the id: only the draw is visible to others. */
  function Draw(s: State, t: Tid): State
    requires t < |s.threads| && s.threads[t].Running? && s.threads[t].op.Create?
  {
    var op := s.threads[t].op;
    var cell := Cell(NewGame(s.drawn % UINT32_LIMIT, op.socket, op.owner), None, None);
    Goto(s.(heap := s.heap[s.brk := cell], brk := s.brk + 1, drawn := s.drawn + 1), t, Fresh(s.brk))
  }

  function Link(s: State, t: Tid, p: Ptr): State
    requires t < |s.threads| && s.threads[t].Running? && s.threads[t].op.Create?
  {
    if p !in s.heap then Goto(s, t, Crashed)
    else
      var id := s.heap[p].game.id;
      var reply := Created(if s.threads[t].op.wantsId then Some(id) else None);
      if s.head.None? then
        Effect(s.(head := Some(p), tail := Some(p), order := s.order + [p]), t, id, reply, Linked(p))
      else if s.tail.None? || s.tail.value !in s.heap then Goto(s, t, Crashed)
      else
        var q := s.tail.value;
        Effect(s.(heap := s.heap[q := s.heap[q].(next := Some(p))], tail := Some(p), order := s.order + [p]),
               t, id, reply, Linked(p))
  }

  function Report(s: State, t: Tid, p: Ptr): State
    requires t < |s.threads| && s.threads[t].Running? && s.threads[t].op.Create?
  {
    if !s.threads[t].op.wantsId then Goto(s, t, Done(Created(None)))
    else if p !in s.heap then Goto(s, t, Crashed)
    else Goto(s, t, Done(Created(Some(s.heap[p].game.id))))
  }

  function Search(s: State, t: Tid, i: nat, prev: Option<Ptr>, cur: Option<Ptr>): State
    requires t < |s.threads| && s.threads[t].Running? && s.threads[t].op.On?
  {
    var op := s.threads[t].op;
    match cur
    case None => Effect(s, t, 0, Missing(op.call), Leaving(Missing(op.call)))
    case Some(p) =>
      if p !in s.heap then Goto(s, t, Crashed)
      else if s.heap[p].game.id == op.id then Goto(s, t, Found(i, prev, p))
      else Goto(s, t, Searching(i + 1, Some(p), s.heap[p].next))
  }

  function SetLock(s: State, p: Ptr, owner: Option<Tid>): State
    requires p in s.heap
  {
    s.(heap := s.heap[p := s.heap[p].(lock := owner)])
  }

  /** Takes or releases the lock of a node and goes on. */
  function LockStep(s: State, t: Tid, p: Ptr, owner: Option<Tid>, phase: Phase): State
    requires t < |s.threads| && s.threads[t].Running?
  {
    if p !in s.heap then Goto(s, t, Crashed) else Goto(SetLock(s, p, owner), t, phase)
  }

  /** Writes the updated game back. */
  function Write(s: State, t: Tid, p: Ptr, g: Game): State
    requires t < |s.threads| && s.threads[t].Running? && s.threads[t].op.On?
  {
    if p !in s.heap then Goto(s, t, Crashed)
    else
      var (g', reply) := OnGame(g, s.threads[t].op.call);
      Effect(s.(heap := s.heap[p := s.heap[p].(game := g')]), t, 0, reply, Written(p, reply))
  }

  function RemoveAt<T>(s: seq<T>, i: nat): seq<T> {
    if i < |s| then s[..i] + s[i + 1..] else s
  }

  /** Writes the seat back and, when the game is vacant, takes its node out of the list. */
  function WriteLeave(s: State, t: Tid, i: nat, prev: Option<Ptr>, p: Ptr, g: Game): State
    requires t < |s.threads| && s.threads[t].Running? && s.threads[t].op.On?
  {
    if p !in s.heap || (prev.Some? && prev.value !in s.heap) then Goto(s, t, Crashed)
    else
      var (g', reply) := OnGame(g, s.threads[t].op.call);
      var written := s.(heap := s.heap[p := s.heap[p].(game := g')]);
      if reply == Left && Vacant(g') then
        Effect(Unlink(written, i, prev, p), t, 0, reply, Unlinked(p, reply))
      else Effect(written, t, 0, reply, Kept(p, reply))
  }

  function Unlink(s: State, i: nat, prev: Option<Ptr>, p: Ptr): State
    requires p in s.heap && (prev.Some? ==> prev.value in s.heap)
  {
    var next := s.heap[p].next;
    s.(heap := if prev.Some? then s.heap[prev.value := s.heap[prev.value].(next := next)] else s.heap,
       head := if prev.Some? then s.head else next,
       tail := if s.tail == Some(p) then prev else s.tail,
       order := RemoveAt(s.order, i))
  }

  function ReadScan(s: State, t: Tid, i: nat, p: Ptr, acc: seq<Snapshot>): State
    requires t < |s.threads| && s.threads[t].Running?
  {
    if p !in s.heap then Goto(s, t, Crashed)
    else
      var g := s.heap[p].game;
      Goto(s, t, ScanRead(i, p, if Joinable(g) then acc + [SnapshotOf(g)] else acc))
  }

  /** The phase can only be one of the call the thread makes. */
  predicate Fits(op: Op, phase: Phase) {
    match phase
    case Drawing | Fresh(_) | Linking(_) | Linked(_) | Reporting(_) => op.Create?
    case Entering => !op.Create?
    case Searching(_, _, _) | Found(_, _, _) => op.On?
    case Both(_) | Inside(_) | Loaded(_, _) | Written(_, _) => op.On? && !op.call.Leave?
    case LeaveInside(_, _, _) | LeaveLoaded(_, _, _, _) | Kept(_, _) | Unlinked(_, _) | Freeing(_, _) =>
      op.On? && op.call.Leave?
    case Leaving(_) => op.On?
    case ScanAt(_, _, _) | ScanLocked(_, _, _) | ScanRead(_, _, _) | ScanNext(_, _, _) | ScanDone(_, _) => op.List?
    case Done(_) | Crashed => true
  }

  predicate Active(s: State, t: Tid) {
    t < |s.threads| && s.threads[t].Running? && Fits(s.threads[t].op, s.threads[t].phase) &&
    !s.threads[t].phase.Done? && !s.threads[t].phase.Crashed?
  }

  /** A thread can step unless it waits for a lock that is held. */
  predicate Enabled(s: State, t: Tid) {
    Active(s, t) &&
    match s.threads[t].phase
    case Fresh(_) | Entering => s.gmLock.None?
    case Found(_, _, p) => p in s.heap ==> s.heap[p].lock.None?
    case ScanAt(_, cur, acc) => cur.Some? && |acc| < 10 && cur.value in s.heap ==> s.heap[cur.value].lock.None?
    case _ => true
  }

  function Next(s: State, t: Tid): State
    requires Enabled(s, t)
  {
    match s.threads[t].phase
    case Drawing => Draw(s, t)
    case Fresh(p) => Goto(s.(gmLock := Some(t)), t, Linking(p))
    case Linking(p) => Link(s, t, p)
    case Linked(p) => Goto(s.(gmLock := None), t, Reporting(p))
    case Reporting(p) => Report(s, t, p)
    case Entering =>
      Goto(s.(gmLock := Some(t)), t,
           if s.threads[t].op.List? then ScanAt(0, s.head, []) else Searching(0, None, s.head))
    case Searching(i, prev, cur) => Search(s, t, i, prev, cur)
    case Found(i, prev, p) =>
      LockStep(s, t, p, Some(t), if s.threads[t].op.call.Leave? then LeaveInside(i, prev, p) else Both(p))
    case Both(p) => Goto(s.(gmLock := None), t, Inside(p))
    case Inside(p) => if p !in s.heap then Goto(s, t, Crashed) else Goto(s, t, Loaded(p, s.heap[p].game))
    case Loaded(p, g) => Write(s, t, p, g)
    case Written(p, reply) => LockStep(s, t, p, None, Done(reply))
    case LeaveInside(i, prev, p) =>
      if p !in s.heap then Goto(s, t, Crashed) else Goto(s, t, LeaveLoaded(i, prev, p, s.heap[p].game))
    case LeaveLoaded(i, prev, p, g) => WriteLeave(s, t, i, prev, p, g)
    case Kept(p, reply) => LockStep(s, t, p, None, Leaving(reply))
    case Unlinked(p, reply) => LockStep(s, t, p, None, Freeing(p, reply))
    case Freeing(p, reply) =>
      if p !in s.heap then Goto(s, t, Crashed) else Goto(s.(heap := s.heap - {p}), t, Leaving(reply))
    case Leaving(reply) => Goto(s.(gmLock := None), t, Done(reply))
    case ScanAt(i, cur, acc) =>
      if cur.Some? && |acc| < 10 then LockStep(s, t, cur.value, Some(t), ScanLocked(i, cur.value, acc))
      else Goto(s, t, ScanDone(i, acc))
    case ScanLocked(i, p, acc) => ReadScan(s, t, i, p, acc)
    case ScanRead(i, p, acc) => LockStep(s, t, p, None, ScanNext(i, p, acc))
    case ScanNext(i, p, acc) =>
      if p !in s.heap then Goto(s, t, Crashed) else Goto(s, t, ScanAt(i + 1, s.heap[p].next, acc))
    case ScanDone(i, acc) => Effect(s.(gmLock := None), t, 0, Listed(acc), Done(Listed(acc)))
  }

  // ---- runs ----

  datatype Action = Call(t: Tid, op: Op) | Step(t: Tid) | Return(t: Tid)

  predicate Possible(s: State, a: Action) {
    a.t < |s.threads| &&
    match a
    case Call(t, _) => s.threads[t].Idle?
    case Step(t) => Enabled(s, t)
    case Return(t) => s.threads[t].Running? && s.threads[t].phase.Done?
  }

  function Do(s: State, a: Action): State
    requires Possible(s, a)
  {
    match a
    case Call(t, op) =>
      s.(threads := s.threads[t := Running(op, |s.log|, None, if op.Create? then Drawing else Entering)])
    case Step(t) => Next(s, t)
    case Return(t) => s.(threads := s.threads[t := Idle])
  }

  /** The state after a schedule, if every action of it was possible when its turn came. */
  function Run(s: State, actions: seq<Action>): Option<State> {
    if actions == [] then Some(s)
    else
      var n := |actions| - 1;
      match Run(s, actions[..n])
      case None => None
      case Some(before) => if Possible(before, actions[n]) then Some(Do(before, actions[n])) else None
  }

  ghost predicate Reachable(n: nat, s: State) {
    exists actions :: Run(Start(n), actions) == Some(s)
  }
}
