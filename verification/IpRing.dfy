/**
 * The ring of internal-pool bitmap blocks: one live slot per bitmap block, the other slots on a
 * first-in first-out free chain threaded through an array (src/apfs_replace.rs `materialize`,
 * src/apfs_verify.rs `verify_ip_ring`).
 */
module IpRing {
  import opened Bytes

  /** Ends the chain, and marks a slot that is not on it. */
  const NIL: nat := 0xffff

  // ---- counting slots --------------------------------------------------------------------------

  predicate Distinct(s: seq<nat>) {
    forall i, j :: 0 <= i < j < |s| ==> s[i] != s[j]
  }

  predicate Below(s: seq<nat>, n: nat) {
    forall i :: 0 <= i < |s| ==> s[i] < n
  }

  function Drop(s: seq<nat>, v: nat): seq<nat> {
    if s == [] then [] else Drop(s[..|s| - 1], v) + if s[|s| - 1] == v then [] else [s[|s| - 1]]
  }

  lemma DistinctPush(s: seq<nat>, x: nat)
    ensures Distinct(s + [x]) <==> Distinct(s) && x !in s
  {
    var more := s + [x];
    if Distinct(more) {
      forall i, j | 0 <= i < j < |s| ensures s[i] != s[j] {
        assert more[i] == s[i] && more[j] == s[j];
      }
      forall i | 0 <= i < |s| ensures s[i] != x {
        assert more[i] == s[i] && more[|s|] == x;
      }
    }
  }

  lemma {:induction false} DropFacts(s: seq<nat>, v: nat)
    ensures forall x :: x in Drop(s, v) <==> x in s && x != v
    ensures Distinct(s) ==> Distinct(Drop(s, v)) && |Drop(s, v)| == |s| - (if v in s then 1 else 0)
  {
    hide Distinct;
    if s == [] {
      EmptyDistinct();
    } else {
      var front, last := s[..|s| - 1], s[|s| - 1];
      DropFacts(front, v);
      assert s == front + [last];
      DistinctPush(front, last);
      DistinctPush(Drop(front, v), last);
      assert Drop(front, v) + [] == Drop(front, v);
    }
  }

  lemma EmptyDistinct()
    ensures Distinct([])
  {
  }

  /** Pigeonhole: distinct numbers below n are at most n, and n of them are all of them. */
  lemma {:induction false} Pigeonhole(s: seq<nat>, n: nat)
    requires Distinct(s) && Below(s, n)
    ensures |s| <= n
    ensures |s| == n <==> forall x: nat :: x < n ==> x in s
    decreases n
  {
    hide Distinct;
    assert s == [] || s[0] < n;
    if n > 0 {
      var rest := Drop(s, n - 1);
      DropFacts(s, n - 1);
      forall i | 0 <= i < |rest| ensures rest[i] < n - 1 {
        assert rest[i] in rest;
      }
      Pigeonhole(rest, n - 1);
      assert forall x: nat :: x < n - 1 ==> (x in s <==> x in rest);
    }
  }

  // ---- the ring ----------------------------------------------------------------------------------

  /** What follows entry i of a path that leads to `end`. */
  function After(path: seq<nat>, i: nat, end: nat): nat {
    if i + 1 < |path| then path[i + 1] else end
  }

  /** Each slot of the chain points to the next, and the last one to nothing. */
  predicate Linked(next: seq<nat>, chain: seq<nat>) {
    && Below(chain, |next|) && NIL !in chain
    && forall i :: 0 <= i < |chain| ==> next[chain[i]] == After(chain, i, NIL)
  }

  /**
   * The free chain runs from head to tail, and chain and live slots partition the ring: every
   * slot is on exactly one of the two lists, once.
   */
  ghost predicate Partition(next: seq<nat>, live: seq<nat>, head: nat, tail: nat, chain: seq<nat>) {
    && Below(live, |next|) && Linked(next, chain) && Distinct(live + chain)
    && (forall s: nat :: s < |next| ==> s in live + chain)
    && head == (if chain == [] then NIL else chain[0])
    && (chain != [] ==> tail == chain[|chain| - 1])
    && forall i :: 0 <= i < |live| ==> next[live[i]] == NIL
  }

  /** The chain is determined by the array and its head. */
  lemma {:induction false} ChainUnique(next: seq<nat>, a: seq<nat>, b: seq<nat>)
    requires Linked(next, a) && Linked(next, b)
    requires (a == [] <==> b == []) && (a != [] && b != [] ==> a[0] == b[0])
    ensures a == b
  {
    if a != [] {
      assert next[a[0]] == next[b[0]];
      assert next[a[0]] == After(a, 0, NIL) && next[b[0]] == After(b, 0, NIL);
      LinkedTail(next, a);
      LinkedTail(next, b);
      ChainUnique(next, a[1..], b[1..]);
      assert a == [a[0]] + a[1..] && b == [b[0]] + b[1..];
    }
  }

  lemma LinkedTail(next: seq<nat>, chain: seq<nat>)
    requires Linked(next, chain) && chain != []
    ensures Linked(next, chain[1..])
  {
    var rest := chain[1..];
    forall i | 0 <= i < |rest| ensures rest[i] < |next| && next[rest[i]] == After(rest, i, NIL) {
      assert rest[i] == chain[i + 1];
    }
  }

  /** The ring as the space manager stores it, with one live slot. */
  class Ring {
    var next: seq<nat>
    var head: nat
    var tail: nat
    var live: nat
    ghost var chain: seq<nat>

    ghost predicate Valid()
      reads this
    {
      |next| <= NIL && Partition(next, [live], head, tail, chain)
    }

    constructor (next: seq<nat>, head: nat, tail: nat, live: nat, ghost chain: seq<nat>)
      requires |next| <= NIL && Partition(next, [live], head, tail, chain)
      ensures Valid() && this.next == next && this.head == head && this.tail == tail && this.live == live &&
              this.chain == chain
    {
      this.next, this.head, this.tail, this.live, this.chain := next, head, tail, live, chain;
    }

    /**
     * The ring part of a transaction: the head of the free chain becomes the live slot and the
     * slot that was live goes to the end of the chain. Refused, without a change, exactly when
     * the ring has fewer than three slots.
     */
    method Rotate() returns (r: Result<nat>)
      requires Valid()
      modifies this
      ensures Valid() && |next| == |old(next)|
      ensures r.Ok? <==> |next| >= 3
      ensures r.Err? ==>
                next == old(next) && head == old(head) && tail == old(tail) && live == old(live) && chain == old(chain)
      ensures r.Ok? ==> r.value == old(head) == live && live != old(live) && old(chain) != []
      ensures r.Ok? ==> chain == old(chain)[1..] + [old(live)]
    {
      RotateGuard(next, live, head, tail, chain);
      if head >= |next| || tail >= |next| || head == live {
        return Err(Capacity);
      }
      var second := next[head];
      if second == NIL {
        return Err(Capacity);
      }
      Rotated(next, live, head, tail, chain);
      r := Ok(head);
      next := next[head := NIL][tail := live][live := NIL];
      chain := chain[1..] + [live];
      head, tail, live := second, live, head;
    }
  }

  /** With one live slot the chain has all the others. */
  lemma RingSize(next: seq<nat>, live: nat, head: nat, tail: nat, chain: seq<nat>)
    requires Partition(next, [live], head, tail, chain)
    ensures |next| == |chain| + 1
  {
    Pigeonhole([live] + chain, |next|);
  }

  /** What the two refusals test. */
  lemma RotateGuard(next: seq<nat>, live: nat, head: nat, tail: nat, chain: seq<nat>)
    requires |next| <= NIL && Partition(next, [live], head, tail, chain)
    ensures |next| == |chain| + 1
    ensures head >= |next| || tail >= |next| || head == live || next[head] == NIL <==> |chain| < 2
    ensures |chain| > 0 ==> head == chain[0] && head != live
  {
    RingSize(next, live, head, tail, chain);
    if |chain| > 0 {
      assert ([live] + chain)[1] == chain[0] && ([live] + chain)[0] == live;
      assert next[chain[0]] == After(chain, 0, NIL);
    }
  }

  lemma Rotated(next: seq<nat>, live: nat, head: nat, tail: nat, chain: seq<nat>)
    requires |next| <= NIL && Partition(next, [live], head, tail, chain) && |chain| >= 2
    ensures head < |next| && tail < |next| && live < |next|
    ensures Partition(next[head := NIL][tail := live][live := NIL], [head], next[head], live, chain[1..] + [live])
  {
    hide Distinct, Linked;
    Slots(next, live, head, tail, chain);
    MovedOrder(live, chain);
    MovedLinks(next, live, chain);
    var all, order := [live] + chain, [head] + (chain[1..] + [live]);
    forall s: nat | s < |next| ensures s in order {
      assert s in all;
    }
  }

  lemma Slots(next: seq<nat>, live: nat, head: nat, tail: nat, chain: seq<nat>)
    requires |next| <= NIL && Partition(next, [live], head, tail, chain) && |chain| >= 2
    ensures head == chain[0] < |next| && tail == chain[|chain| - 1] < |next| && [live][0] == live < |next| &&
            next[live] == NIL
    ensures next[head] == chain[1] && Distinct([live] + chain)
  {
    assert next[chain[0]] == After(chain, 0, NIL);
    assert next[[live][0]] == NIL;
  }

  lemma MovedOrder(live: nat, chain: seq<nat>)
    requires Distinct([live] + chain) && |chain| >= 2
    ensures Distinct([chain[0]] + (chain[1..] + [live]))
    ensures forall x :: x in [live] + chain ==> x in [chain[0]] + (chain[1..] + [live])
  {
    var all, order := [live] + chain, [chain[0]] + (chain[1..] + [live]);
    forall i, j | 0 <= i < j < |order| ensures order[i] != order[j] {
      assert order[i] == all[i + 1];
      assert order[j] == if j == |chain| then all[0] else all[j + 1];
    }
    forall x | x in all ensures x in order {
      var k :| 0 <= k < |all| && all[k] == x;
      assert order[if k == 0 then |chain| else k - 1] == x;
    }
  }

  lemma MovedLinks(next: seq<nat>, live: nat, chain: seq<nat>)
    requires Linked(next, chain) && live < |next| && live != NIL && |chain| >= 2 && Distinct([live] + chain)
    ensures Linked(next[chain[0] := NIL][chain[|chain| - 1] := live][live := NIL], chain[1..] + [live])
    ensures next[chain[0] := NIL][chain[|chain| - 1] := live][live := NIL][chain[0]] == NIL
  {
    var n := |chain| - 1;
    var all := [live] + chain;
    var after, moved := next[chain[0] := NIL][chain[n] := live][live := NIL], chain[1..] + [live];
    assert all[0] == live && all[1] == chain[0] && all[n + 1] == chain[n];
    forall i | 0 <= i < |moved| ensures moved[i] < |after| && after[moved[i]] == After(moved, i, NIL) {
      if i < n {
        assert moved[i] == chain[i + 1] == all[i + 2];
        assert next[chain[i + 1]] == After(chain, i + 1, NIL);
      }
    }
  }

  function Rem(x: nat, m: nat): (r: nat)
    requires m > 0
    ensures r < m
  {
    x % m
  }

  lemma SplitNumber(x: nat, m: nat) returns (q: nat)
    requires m > 0
    ensures x == q * m + Rem(x, m)
  {
    q := x / m;
  }

  lemma RemUnique(x: nat, q: nat, r: nat, m: nat)
    requires r < m && x == q * m + r
    ensures Rem(x, m) == r
  {
    DivMod(q, m, r);
  }

  lemma SameResidue(i: nat, j: nat, m: nat)
    requires m > 0 && i <= j
    ensures Rem(i, m) == Rem(j, m) <==> Rem(j - i, m) == 0
  {
    hide Rem;
    var a := SplitNumber(i, m);
    var b := SplitNumber(j, m);
    var d := SplitNumber(j - i, m);
    Residues(a, Rem(i, m), b, Rem(j, m), d, Rem(j - i, m), m);
  }

  lemma Residues(a: nat, r: nat, b: nat, s: nat, d: nat, t: nat, m: nat)
    requires r < m && s < m && t < m && a * m + r + (d * m + t) == b * m + s
    ensures r == s <==> t == 0
  {
    assert (a + d) * m == a * m + d * m;
    if r + t < m {
      QuotientUnique(a + d, b, m, r + t, s);
    } else {
      assert (a + d + 1) * m == a * m + d * m + m;
      QuotientUnique(a + d + 1, b, m, r + t - m, s);
    }
  }

  lemma RemWraps(k: nat, m: nat)
    requires m > 0
    ensures Rem(k + m, m) == Rem(k, m)
  {
    hide Rem;
    var q := SplitNumber(k, m);
    assert (q + 1) * m == q * m + m;
    RemUnique(k + m, q + 1, Rem(k, m), m);
  }

  /** The order turned by k places. */
  function Turn(order: seq<nat>, k: nat): (t: seq<nat>)
    requires order != []
    ensures |t| == |order|
  {
    seq(|order|, i requires 0 <= i < |order| => order[Rem(i + k, |order|)])
  }

  lemma TurnNone(order: seq<nat>)
    requires order != []
    ensures Turn(order, 0) == order
  {
    hide Rem;
    forall i | 0 <= i < |order| ensures Turn(order, 0)[i] == order[i] {
      RemUnique(i, 0, i, |order|);
    }
  }

  lemma TurnMore(order: seq<nat>, k: nat)
    requires order != []
    ensures Turn(order, k + 1) == Turn(order, k)[1..] + [Turn(order, k)[0]]
    ensures Turn(order, k)[0] == order[Rem(k, |order|)]
  {
    hide Rem;
    var m, before := |order|, Turn(order, k);
    forall i | 0 <= i < m ensures Turn(order, k + 1)[i] == (before[1..] + [before[0]])[i] {
      if i == m - 1 {
        RemWraps(k, m);
        assert i + (k + 1) == k + m;
      } else {
        assert i + (k + 1) == (i + 1) + k;
      }
    }
  }

  lemma HeadIs(next: seq<nat>, live: nat, head: nat, tail: nat, chain: seq<nat>)
    requires Partition(next, [live], head, tail, chain) && |next| >= 3
    ensures |chain| >= 2 && head == chain[0]
  {
    RingSize(next, live, head, tail, chain);
  }

  lemma OrderDistinct(next: seq<nat>, live: nat, head: nat, tail: nat, chain: seq<nat>)
    requires Partition(next, [live], head, tail, chain)
    ensures Distinct(chain + [live]) && |chain + [live]| == |next|
  {
    var all, order := [live] + chain, chain + [live];
    RingSize(next, live, head, tail, chain);
    forall i, j | 0 <= i < j < |order| ensures order[i] != order[j] {
      assert order[i] == all[i + 1];
      assert order[j] == if j == |chain| then all[0] else all[j + 1];
    }
  }

  /** Writing the slots of the order round and round. */
  lemma RoundAndRound(order: seq<nat>, written: seq<nat>, i: nat, j: nat)
    requires order != [] && Distinct(order) && i <= j < |written|
    requires forall k :: 0 <= k < |written| ==> written[k] == order[Rem(k, |order|)]
    ensures written[i] == written[j] <==> (j - i) % |order| == 0
  {
    var m := |order|;
    SameResidue(i, j, m);
    assert Rem(j - i, m) == (j - i) % m;
    hide Rem;
    var a, b := Rem(i, m), Rem(j, m);
    assert a < b || a == b || b < a;
    assert written[i] == order[a] && written[j] == order[b];
  }

  /**
   * Any number of transactions on a ring of at least three slots: all succeed, and two of them
   * write the same slot exactly when they are a multiple of the ring size apart.
   */
  method Transactions(ring: Ring, n: nat) returns (written: seq<nat>)
    requires ring.Valid() && |ring.next| >= 3
    modifies ring
    ensures ring.Valid() && |written| == n && |ring.next| == |old(ring.next)|
    ensures forall i, j :: 0 <= i <= j < n ==> (written[i] == written[j] <==> (j - i) % |ring.next| == 0)
    ensures n > 0 ==> ring.live == written[n - 1]
  {
    hide Partition, Turn, Rem, Distinct;
    ghost var order := ring.chain + [ring.live];
    ghost var m := |ring.next|;
    OrderDistinct(ring.next, ring.live, ring.head, ring.tail, ring.chain);
    written := [];
    TurnNone(order);
    for k := 0 to n
      invariant ring.Valid() && |ring.next| == m && |written| == k
      invariant ring.chain + [ring.live] == Turn(order, k)
      invariant forall i :: 0 <= i < k ==> written[i] == order[Rem(i, m)]
      invariant k > 0 ==> ring.live == written[k - 1]
    {
      HeadIs(ring.next, ring.live, ring.head, ring.tail, ring.chain);
      TurnMore(order, k);
      ghost var before := ring.chain + [ring.live];
      var r := ring.Rotate();
      assert ring.chain + [ring.live] == before[1..] + [before[0]];
      written := written + [r.value];
    }
    forall i, j | 0 <= i <= j < n ensures written[i] == written[j] <==> (j - i) % m == 0 {
      RoundAndRound(order, written, i, j);
    }
  }

  // ---- the verifier --------------------------------------------------------------------------------

  /** The sizes and transaction ids a mounted ring may have. */
  predicate RingShape(live: seq<nat>, xids: seq<nat>, slots: nat, xid: nat) {
    0 < |live| == |xids| && |live| <= slots && forall i :: 0 <= i < |xids| ==> xids[i] <= xid
  }

  /** Walks the free chain from its head. */
  method WalkChain(next: seq<nat>, live: seq<nat>, head: nat, tail: nat) returns (r: Result<seq<nat>>)
    requires Below(live, |next|) && Distinct(live)
    ensures r.Ok? ==> Linked(next, r.value) && Distinct(live + r.value)
    ensures r.Ok? ==>
              head == (if r.value == [] then NIL else r.value[0]) && (r.value != [] ==> tail == r.value[|r.value| - 1])
    ensures r.Err? ==> forall chain :: !Partition(next, live, head, tail, chain)
  {
    var visited: seq<nat> := [];
    var cursor: nat := head;
    while cursor != NIL
      invariant Path(next, live, head, visited, cursor)
      invariant cursor == NIL && visited != [] ==> tail == visited[|visited| - 1]
      decreases |next| - |visited|
    {
      PathShort(next, live, head, visited, cursor);
      if cursor >= |next| || cursor in visited || cursor in live || (next[cursor] == NIL && cursor != tail) {
        PathBlocked(next, live, head, tail, visited, cursor);
        return Err(Malformed);
      }
      PathNext(next, live, head, visited, cursor);
      visited := visited + [cursor];
      cursor := next[cursor];
    }
    r := Ok(visited);
  }

  /** The part of the chain already walked, and where the walk stands. */
  ghost predicate Path(next: seq<nat>, live: seq<nat>, head: nat, visited: seq<nat>, cursor: nat) {
    && Below(live, |next|) && Below(visited, |next|) && NIL !in visited && Distinct(live + visited)
    && head == (if visited == [] then cursor else visited[0])
    && forall i :: 0 <= i < |visited| ==> next[visited[i]] == After(visited, i, cursor)
  }

  lemma PathShort(next: seq<nat>, live: seq<nat>, head: nat, visited: seq<nat>, cursor: nat)
    requires Path(next, live, head, visited, cursor)
    ensures |visited| <= |next|
    ensures cursor < |next| && cursor !in visited ==> |visited| < |next|
  {
    forall i, j | 0 <= i < j < |visited| ensures visited[i] != visited[j] {
      assert (live + visited)[|live| + i] == visited[i] && (live + visited)[|live| + j] == visited[j];
    }
    Pigeonhole(visited, |next|);
  }

  lemma PathNext(next: seq<nat>, live: seq<nat>, head: nat, visited: seq<nat>, cursor: nat)
    requires Path(next, live, head, visited, cursor) && cursor != NIL && cursor < |next| && cursor !in visited &&
             cursor !in live
    ensures Path(next, live, head, visited + [cursor], next[cursor])
  {
    var all := live + visited;
    assert live + (visited + [cursor]) == all + [cursor];
    assert cursor !in all;
  }

  /** Any chain that partitions the ring begins with the path walked so far. */
  lemma {:induction false} PathPrefix(next: seq<nat>, live: seq<nat>, head: nat, tail: nat, visited: seq<nat>,
                                      cursor: nat, chain: seq<nat>, k: nat)
    requires Path(next, live, head, visited, cursor) && Partition(next, live, head, tail, chain) && k <= |visited|
    ensures k <= |chain| && chain[..k] == visited[..k]
    ensures k == |visited| ==> cursor == if k < |chain| then chain[k] else NIL
  {
    if k > 0 {
      PathPrefix(next, live, head, tail, visited, cursor, chain, k - 1);
      assert chain[..k - 1] == visited[..k - 1];
      if k > 1 {
        assert chain[k - 2] == chain[..k - 1][k - 2] == visited[k - 2];
        assert next[visited[k - 2]] == visited[k - 1];
      }
      assert k - 1 < |chain| && chain[k - 1] == visited[k - 1];
      assert chain[..k] == chain[..k - 1] + [chain[k - 1]] && visited[..k] == visited[..k - 1] + [visited[k - 1]];
    }
  }

  lemma PathBlocked(next: seq<nat>, live: seq<nat>, head: nat, tail: nat, visited: seq<nat>, cursor: nat)
    requires Path(next, live, head, visited, cursor) && cursor != NIL
    requires cursor >= |next| || cursor in visited || cursor in live || (next[cursor] == NIL && cursor != tail)
    ensures forall chain :: !Partition(next, live, head, tail, chain)
  {
    forall chain ensures !Partition(next, live, head, tail, chain) {
      if Partition(next, live, head, tail, chain) {
        PathPrefix(next, live, head, tail, visited, cursor, chain, |visited|);
        OnChainOnce(next, live, head, tail, chain, |visited|);
      }
    }
  }

  lemma OnChainOnce(next: seq<nat>, live: seq<nat>, head: nat, tail: nat, chain: seq<nat>, k: nat)
    requires Partition(next, live, head, tail, chain) && k < |chain|
    ensures chain[k] < |next| && chain[k] !in chain[..k] && chain[k] !in live
    ensures next[chain[k]] == NIL ==> chain[k] == tail
  {
    var all := live + chain;
    forall i | 0 <= i < k ensures chain[i] != chain[k] {
      assert all[|live| + i] == chain[i] && all[|live| + k] == chain[k];
    }
    forall i | 0 <= i < |live| ensures live[i] != chain[k] {
      assert all[i] == live[i] && all[|live| + k] == chain[k];
    }
  }

  /**
   * The verifier accepts exactly the rings whose live slots and free chain partition all slots,
   * with no live bitmap newer than the checkpoint; the count comparison at the end decides
   * coverage by the pigeonhole principle.
   */
  method VerifyRing(next: seq<nat>, live: seq<nat>, xids: seq<nat>, head: nat, tail: nat, xid: nat)
      returns (r: Result<bool>)
    requires |live| == |xids|
    ensures r.Ok? <==> RingShape(live, xids, |next|, xid) && exists chain :: Partition(next, live, head, tail, chain)
  {
    hide Partition, Linked;
    if |live| == 0 || |next| == 0 || |live| > |next| {
      return Err(Malformed);
    }
    for i := 0 to |live|
      invariant Below(live[..i], |next|) && Distinct(live[..i])
      invariant forall k :: 0 <= k < i ==> xids[k] <= xid
    {
      if live[i] >= |next| || live[i] in live[..i] || xids[i] > xid {
        LiveBad(next, live, head, tail, i);
        return Err(Malformed);
      }
      assert live[..i + 1] == live[..i] + [live[i]];
    }
    assert live[..|live|] == live;
    var chain := WalkChain(next, live, head, tail);
    if chain.Err? {
      return Err(Malformed);
    }
    var visited := chain.value;
    CountDecides(next, live, head, tail, visited);
    if |visited| != |next| - |live| {
      return Err(Malformed);
    }
    for i := 0 to |live|
      invariant forall k :: 0 <= k < i ==> next[live[k]] == NIL
    {
      if next[live[i]] != NIL {
        LiveLink(next, live, head, tail, i);
        return Err(Malformed);
      }
    }
    Accepted(next, live, head, tail, visited);
    r := Ok(true);
  }

  lemma LiveBad(next: seq<nat>, live: seq<nat>, head: nat, tail: nat, i: nat)
    requires i < |live|
    ensures live[i] >= |next| || live[i] in live[..i] ==> forall chain :: !Partition(next, live, head, tail, chain)
  {
    if live[i] in live[..i] {
      var k :| 0 <= k < i && live[k] == live[i];
      forall chain ensures !Partition(next, live, head, tail, chain) {
        assert (live + chain)[k] == (live + chain)[i];
      }
    }
  }

  lemma LiveLink(next: seq<nat>, live: seq<nat>, head: nat, tail: nat, i: nat)
    requires i < |live| && live[i] < |next| && next[live[i]] != NIL
    ensures forall chain :: !Partition(next, live, head, tail, chain)
  {
  }

  /** The walked chain covers the rest of the ring exactly when the counts add up. */
  lemma CountDecides(next: seq<nat>, live: seq<nat>, head: nat, tail: nat, visited: seq<nat>)
    requires Below(live, |next|) && Linked(next, visited) && Distinct(live + visited)
    requires head == if visited == [] then NIL else visited[0]
    ensures |visited| == |next| - |live| <==> forall s: nat :: s < |next| ==> s in live + visited
    ensures |visited| != |next| - |live| ==> forall chain :: !Partition(next, live, head, tail, chain)
  {
    Pigeonhole(live + visited, |next|);
    forall chain | Partition(next, live, head, tail, chain) ensures chain == visited {
      assert chain != [] ==> chain[0] < |next|;
      ChainUnique(next, chain, visited);
    }
  }

  lemma Accepted(next: seq<nat>, live: seq<nat>, head: nat, tail: nat, visited: seq<nat>)
    requires Below(live, |next|) && Linked(next, visited) && Distinct(live + visited)
    requires forall s: nat :: s < |next| ==> s in live + visited
    requires head == (if visited == [] then NIL else visited[0]) && (visited != [] ==> tail == visited[|visited| - 1])
    requires forall k :: 0 <= k < |live| ==> next[live[k]] == NIL
    ensures exists chain :: Partition(next, live, head, tail, chain)
  {
    assert Partition(next, live, head, tail, visited);
  }

  /** The smallest ring: the verifier accepts it, and no transaction can turn it. */
  method TwoSlots() returns (ring: Ring, accepted: Result<bool>, turned: Result<nat>)
    ensures ring.next == [NIL, NIL] && Partition(ring.next, [ring.live], ring.head, ring.tail, ring.chain)
    ensures RingShape([ring.live], [1], |ring.next|, 1)
    ensures accepted.Ok? && turned.Err?
  {
    hide Partition;
    TwoSlotsPartition();
    accepted := VerifyRing([NIL, NIL], [0], [1], 1, 1, 1);
    ring := new Ring([NIL, NIL], 1, 1, 0, [1]);
    turned := ring.Rotate();
  }

  lemma TwoSlotsPartition()
    ensures Partition([NIL, NIL], [0], 1, 1, [1])
  {
    assert [0] + [1] == [0, 1];
  }
}
