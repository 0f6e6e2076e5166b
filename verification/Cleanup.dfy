/** Vacating the games a client still owns: collect up to 128 ids, then leave each of them. */
module CleanupSpec {
  import opened TrisTypes
  import opened GameRules
  import opened ManagerSpec

  const CLEANUP_LIMIT: nat := 128

  predicate OwnedBy(g: Game, socket: int, spared: u32) {
    g.xSocket == socket && g.id != spared
  }

  /** The ids collected by the scan of the list. */
  function OwnedIds(games: seq<Game>, socket: int, spared: u32): (ids: seq<u32>)
    ensures |ids| <= CLEANUP_LIMIT
  {
    if games == [] then []
    else
      var ids := OwnedIds(games[..|games| - 1], socket, spared);
      var g := games[|games| - 1];
      if |ids| < CLEANUP_LIMIT && OwnedBy(g, socket, spared) then ids + [g.id] else ids
  }

  /** The games after leaving a series of ids one after the other. */
  function LeaveAll(games: seq<Game>, ids: seq<u32>, socket: int): seq<Game> {
    if ids == [] then games
    else
      var n := |ids| - 1;
      Apply(LeaveAll(games, ids[..n], socket), On(ids[n], Leave(socket)), 0).0
  }

  /** What the scan collects, said without the scan. */
  function OwnedOnly(games: seq<Game>, socket: int, spared: u32): seq<Game> {
    if games == [] then []
    else
      var n := |games| - 1;
      OwnedOnly(games[..n], socket, spared) + (if OwnedBy(games[n], socket, spared) then [games[n]] else [])
  }

  lemma {:induction false} OwnedIdsAreFirst(games: seq<Game>, socket: int, spared: u32)
    ensures var owned := OwnedOnly(games, socket, spared);
      var ids := OwnedIds(games, socket, spared);
      && |ids| == (if |owned| < CLEANUP_LIMIT then |owned| else CLEANUP_LIMIT)
      && forall k :: 0 <= k < |ids| ==> ids[k] == owned[k].id
  {
    if games != [] { OwnedIdsAreFirst(games[..|games| - 1], socket, spared); }
  }

  lemma {:induction false} OwnedIdsFull(games: seq<Game>, n: nat, socket: int, spared: u32)
    requires n <= |games| && |OwnedIds(games[..n], socket, spared)| >= CLEANUP_LIMIT
    ensures OwnedIds(games, socket, spared) == OwnedIds(games[..n], socket, spared)
    decreases |games|
  {
    if n < |games| {
      var m := |games| - 1;
      assert games[..m][..n] == games[..n];
      OwnedIdsFull(games[..m], n, socket, spared);
    } else {
      assert games[..n] == games;
    }
  }

  /** The scan has ended after n games: at the end of the list, or with the buffer full. */
  lemma OwnedIdsScanned(games: seq<Game>, n: nat, socket: int, spared: u32)
    requires n <= |games| && (n == |games| || |OwnedIds(games[..n], socket, spared)| >= CLEANUP_LIMIT)
    ensures OwnedIds(games, socket, spared) == OwnedIds(games[..n], socket, spared)
  {
    if n == |games| { assert games[..n] == games; } else { OwnedIdsFull(games, n, socket, spared); }
  }

  lemma OwnedIdsStep(games: seq<Game>, i: nat, socket: int, spared: u32)
    requires i < |games|
    ensures var ids := OwnedIds(games[..i], socket, spared);
      OwnedIds(games[..i + 1], socket, spared) ==
        if |ids| < CLEANUP_LIMIT && OwnedBy(games[i], socket, spared) then ids + [games[i].id] else ids
  {
    assert games[..i + 1][..i] == games[..i];
  }

  // ---- the exact effect ----

  /** One game after the cleanup: its X seat is free, and it is gone if it became vacant. */
  function Vacated(g: Game): seq<Game> {
    var g' := g.(xSocket := NOBODY);
    if Vacant(g') then [] else [g']
  }

  /** Exactly the games with the given ids are vacated; all others stay, in order. */
  function Cleaned(games: seq<Game>, ids: seq<u32>): seq<Game> {
    if games == [] then []
    else
      var n := |games| - 1;
      Cleaned(games[..n], ids) + (if games[n].id in ids then Vacated(games[n]) else [games[n]])
  }

  lemma {:induction false} CleanedConcat(a: seq<Game>, b: seq<Game>, ids: seq<u32>)
    ensures Cleaned(a + b, ids) == Cleaned(a, ids) + Cleaned(b, ids)
  {
    if b == [] {
      assert a + b == a;
    } else {
      var n := |b| - 1;
      assert (a + b)[..|a + b| - 1] == a + b[..n];
      CleanedConcat(a, b[..n], ids);
    }
  }

  lemma {:induction false} CleanedNone(games: seq<Game>)
    ensures Cleaned(games, []) == games
  {
    if games != [] { CleanedNone(games[..|games| - 1]); }
  }

  lemma {:induction false} CleanedMore(games: seq<Game>, ids: seq<u32>, id: u32)
    requires forall k :: 0 <= k < |games| ==> games[k].id != id
    ensures Cleaned(games, ids + [id]) == Cleaned(games, ids)
    ensures forall k :: 0 <= k < |Cleaned(games, ids)| ==> Cleaned(games, ids)[k].id != id
  {
    if games != [] { CleanedMore(games[..|games| - 1], ids, id); }
  }

  /** One leave of the cleanup: it finds the game and vacates exactly it. */
  lemma CleanedStep(games: seq<Game>, j: nat, ids: seq<u32>, socket: int)
    requires UniqueIds(games) && j < |games| && games[j].id !in ids && games[j].xSocket == socket
    ensures Apply(Cleaned(games, ids), On(games[j].id, Leave(socket)), 0).0 == Cleaned(games, ids + [games[j].id])
  {
    var g, pre, post := games[j], games[..j], games[j + 1..];
    var a, b := Cleaned(pre, ids), Cleaned(post, ids);
    CleanedAround(games, j, ids);
    CleanedAround(games, j, ids + [g.id]);
    CleanedMore(pre, ids, g.id);
    CleanedMore(post, ids, g.id);
    LeaveInside(a, g, b, socket);
  }

  lemma CleanedAround(games: seq<Game>, j: nat, ids: seq<u32>)
    requires j < |games|
    ensures Cleaned(games, ids) ==
      Cleaned(games[..j], ids) + (if games[j].id in ids then Vacated(games[j]) else [games[j]]) +
      Cleaned(games[j + 1..], ids)
  {
    var g, pre, post := games[j], games[..j], games[j + 1..];
    assert games == pre + ([g] + post);
    CleanedConcat(pre, [g] + post, ids);
    CleanedConcat([g], post, ids);
    CleanedOne(g, ids);
  }

  lemma Sandwich<T>(a: seq<T>, x: T, y: T, b: seq<T>)
    ensures var s := a + [x] + b;
      s[..|a|] == a && s[|a|] == x && s[|a| + 1..] == b && s[|a| := y] == a + [y] + b
  {
  }

  lemma LeaveInside(a: seq<Game>, g: Game, b: seq<Game>, socket: int)
    requires g.xSocket == socket && forall k :: 0 <= k < |a| ==> a[k].id != g.id
    ensures Apply(a + [g] + b, On(g.id, Leave(socket)), 0).0 == a + Vacated(g) + b
  {
    var before, g' := a + [g] + b, g.(xSocket := NOBODY);
    Sandwich(a, g, g', b);
    IndexOfIs(before, g.id, |a|);
    assert LeaveSeat(g, socket) == (g', Left);
    AppliedAt(before, g.id, Leave(socket), 0, |a|, g', Left);
    if Vacant(g') { assert a + [] + b == a + b; }
  }

  lemma CleanedOne(g: Game, ids: seq<u32>)
    ensures Cleaned([g], ids) == if g.id in ids then Vacated(g) else [g]
  {
    assert [g][..0] == [];
  }

  lemma {:induction false} OwnedIdMember(games: seq<Game>, socket: int, spared: u32, k: nat) returns (j: nat)
    requires UniqueIds(games) && k < |OwnedIds(games, socket, spared)|
    ensures j < |games| && OwnedBy(games[j], socket, spared) && games[j].id == OwnedIds(games, socket, spared)[k]
    ensures games[j].id !in OwnedIds(games, socket, spared)[..k]
  {
    var n := |games| - 1;
    var ids := OwnedIds(games[..n], socket, spared);
    if k < |ids| {
      j := OwnedIdMember(games[..n], socket, spared, k);
      assert OwnedIds(games, socket, spared)[..k] == ids[..k];
    } else {
      j := n;
      forall m | 0 <= m < k ensures ids[m] != games[n].id {
        var i := OwnedIdMember(games[..n], socket, spared, m);
      }
    }
  }

  lemma {:induction false} LeaveAllCleans(games: seq<Game>, socket: int, spared: u32, k: nat)
    requires UniqueIds(games) && k <= |OwnedIds(games, socket, spared)|
    ensures LeaveAll(games, OwnedIds(games, socket, spared)[..k], socket) ==
            Cleaned(games, OwnedIds(games, socket, spared)[..k])
  {
    var ids := OwnedIds(games, socket, spared);
    if k == 0 {
      CleanedNone(games);
    } else {
      LeaveAllCleans(games, socket, spared, k - 1);
      var j := OwnedIdMember(games, socket, spared, k - 1);
      CleanedStep(games, j, ids[..k - 1], socket);
      assert ids[..k] == ids[..k - 1] + [games[j].id] && ids[..k][..k - 1] == ids[..k - 1];
    }
  }

  /** The cleanup, run alone, vacates exactly the first min(128, n) games the socket owns other
      than the spared one, deletes those it leaves vacant, and keeps all others and the order. */
  lemma CleanupIsExact(games: seq<Game>, socket: int, spared: u32)
    requires UniqueIds(games)
    ensures LeaveAll(games, OwnedIds(games, socket, spared), socket) ==
            Cleaned(games, OwnedIds(games, socket, spared))
  {
    var ids := OwnedIds(games, socket, spared);
    LeaveAllCleans(games, socket, spared, |ids|);
    assert ids[..|ids|] == ids;
  }

  /** What one listed game turns into, if it stays listed. */
  predicate Becomes(g: Game, ids: seq<u32>, g': Game) {
    if g.id in ids then g' == g.(xSocket := NOBODY) && !Vacant(g') else g' == g
  }

  lemma {:induction false} CleanedFrom(games: seq<Game>, ids: seq<u32>, g: Game) returns (k: nat)
    requires g in Cleaned(games, ids)
    ensures k < |games| && Becomes(games[k], ids, g)
  {
    var n := |games| - 1;
    if g in Cleaned(games[..n], ids) {
      k := CleanedFrom(games[..n], ids, g);
    } else {
      k := n;
    }
  }

  lemma {:induction false} CleanedTo(games: seq<Game>, ids: seq<u32>, k: nat, g: Game)
    requires k < |games| && Becomes(games[k], ids, g)
    ensures g in Cleaned(games, ids)
  {
    var n := |games| - 1;
    if k < n {
      CleanedTo(games[..n], ids, k, g);
    } else {
      var last := if games[n].id in ids then Vacated(games[n]) else [games[n]];
      assert last[0] == g;
    }
  }

  lemma {:induction false} OwnedIdsComplete(games: seq<Game>, socket: int, spared: u32, k: nat)
    requires k < |games| && OwnedBy(games[k], socket, spared)
    requires |OwnedOnly(games, socket, spared)| <= CLEANUP_LIMIT
    ensures games[k].id in OwnedIds(games, socket, spared)
  {
    var n := |games| - 1;
    OwnedIdsAreFirst(games[..n], socket, spared);
    if k < n { OwnedIdsComplete(games[..n], socket, spared, k); }
  }

  /** With at most 128 games to clean, the socket owns nothing but the spared game afterwards. */
  lemma CleanupLeavesNothing(games: seq<Game>, socket: int, spared: u32)
    requires UniqueIds(games) && socket != NOBODY && |OwnedOnly(games, socket, spared)| <= CLEANUP_LIMIT
    ensures forall g :: g in LeaveAll(games, OwnedIds(games, socket, spared), socket) ==> !OwnedBy(g, socket, spared)
  {
    var ids := OwnedIds(games, socket, spared);
    CleanupIsExact(games, socket, spared);
    forall g | g in Cleaned(games, ids) ensures !OwnedBy(g, socket, spared) {
      var k := CleanedFrom(games, ids, g);
      if OwnedBy(games[k], socket, spared) { OwnedIdsComplete(games, socket, spared, k); }
    }
  }

  /** Passing 0 as the game to spare does not mean "none": game 0 is kept as it is. */
  lemma CleanupSparesGameZero(games: seq<Game>, socket: int, k: nat)
    requires UniqueIds(games) && k < |games| && games[k].id == 0
    ensures games[k] in LeaveAll(games, OwnedIds(games, socket, 0), socket)
  {
    var ids := OwnedIds(games, socket, 0);
    CleanupIsExact(games, socket, 0);
    if 0 in ids {
      var m :| 0 <= m < |ids| && ids[m] == 0;
      var j := OwnedIdMember(games, socket, 0, m);
    }
    CleanedTo(games, ids, k, games[k]);
  }
}
