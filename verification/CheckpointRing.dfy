/**
 * The checkpoint descriptor ring: appending a checkpoint (src/apfs_update.rs
 * `append_checkpoint`), finding the newest one (src/apfs_read.rs `mount`) and the index check of
 * src/apfs_verify.rs.
 */
module CheckpointRing {
  import opened Bytes

  /** A descriptor block: a checkpoint map, a container superblock, or anything the scan skips. */
  datatype Slot =
    | Blank
    | CheckpointMap(xid: nat, own: nat)
    | Superblock(xid: nat, nextXid: nat, index: nat, next: nat, len: nat)

  function Wrap(x: nat, d: nat): (r: nat)
    requires d > 0
    ensures r < d && (x < d ==> r == x) && (d <= x < 2 * d ==> r == x - d)
  {
    WrapOnce(x, d);
    x % d
  }

  lemma WrapOnce(x: nat, d: nat)
    requires d > 0
    ensures (x < d ==> x % d == x) && (d <= x < 2 * d ==> x % d == x - d)
  {
    if x < d {
      DivMod(0, d, x);
    } else if x < 2 * d {
      DivMod(1, d, x - d);
    }
  }

  /** Of the superblocks with the highest transaction id, the first. */
  predicate NewestAt(slots: seq<Slot>, s: nat) {
    && s < |slots| && slots[s].Superblock?
    && (forall k :: 0 <= k < |slots| && slots[k].Superblock? ==> slots[k].xid <= slots[s].xid)
    && (forall k :: 0 <= k < s && slots[k].Superblock? ==> slots[k].xid < slots[s].xid)
  }

  /** The mount scan. */
  method Scan(slots: seq<Slot>) returns (best: Option<(nat, nat)>)
    ensures best.None? <==> forall k :: 0 <= k < |slots| ==> !slots[k].Superblock?
    ensures best.Some? ==> NewestAt(slots, best.value.1) && best.value.0 == slots[best.value.1].xid
  {
    best := None;
    for s := 0 to |slots|
      invariant best.None? <==> forall k :: 0 <= k < s ==> !slots[k].Superblock?
      invariant best.Some? ==> NewestAt(slots[..s], best.value.1) && best.value.0 == slots[best.value.1].xid
    {
      if slots[s].Superblock? && (best.None? || slots[s].xid > best.value.0) {
        best := Some((slots[s].xid, s));
      }
    }
    assert slots[..|slots|] == slots;
  }

  /** The descriptor index the verifier expects of a superblock in a given slot. */
  function ExpectedIndex(slot: nat, d: nat, len: nat): nat
    requires 0 < len <= d
  {
    Wrap(slot + d - len + 1, d)
  }

  /** Both blocks of the checkpoint `xid` are at `index`, as they were written. */
  predicate Intact(slots: seq<Slot>, index: nat, xid: nat, base: nat) {
    var d := |slots|;
    && index < d
    && slots[index] == CheckpointMap(xid, base + index)
    && slots[Wrap(index + 1, d)] == Superblock(xid, xid + 1, index, Wrap(index + 2, d), 2)
  }

  /** The index of the checkpoint i before the one at c. */
  function Back(c: nat, i: nat, d: nat): nat
    requires 2 * i <= c + d && d > 0
  {
    Wrap(c + d - 2 * i, d)
  }

  /** The newest checkpoint is at c, and it is the only superblock with its transaction id. */
  ghost predicate Current(slots: seq<Slot>, c: nat, xid: nat, base: nat) {
    && |slots| >= 2 && Intact(slots, c, xid, base)
    && forall s :: 0 <= s < |slots| && slots[s].Superblock? ==>
         slots[s].xid <= xid && (slots[s].xid == xid ==> s == Wrap(c + 1, |slots|))
  }

  /** The last `keep` checkpoints of the history are all intact. */
  ghost predicate Kept(slots: seq<Slot>, c: nat, base: nat, history: seq<nat>, keep: nat) {
    && keep <= |history| && 2 * keep <= |slots| && |slots| > 0
    && forall i :: 0 <= i < keep ==> KeptAt(slots, c, base, history, i)
  }

  /** The checkpoint i before the last is intact. */
  ghost predicate KeptAt(slots: seq<Slot>, c: nat, base: nat, history: seq<nat>, i: nat)
    requires i < |history| && 2 * i <= |slots| && |slots| > 0
  {
    Intact(slots, Back(c, i, |slots|), history[|history| - 1 - i], base)
  }

  /** The area after a checkpoint has been written two slots further on. */
  function Appended(slots: seq<Slot>, c: nat, xid: nat, base: nat): (r: seq<Slot>)
    requires c < |slots|
    ensures |r| == |slots|
  {
    var d := |slots|;
    var index := Wrap(c + 2, d);
    slots[index := CheckpointMap(xid, base + index)][Wrap(index + 1, d) :=
                                                       Superblock(xid, xid + 1, index, Wrap(index + 2, d), 2)]
  }

  lemma AppendedCurrent(slots: seq<Slot>, c: nat, was: nat, xid: nat, base: nat)
    requires Current(slots, c, was, base) && |slots| >= 3 && was < xid
    ensures Current(Appended(slots, c, xid, base), Wrap(c + 2, |slots|), xid, base)
  {
    hide Wrap;
  }

  /** A checkpoint whose two slots lie elsewhere is not touched. */
  lemma AppendedElsewhere(slots: seq<Slot>, c: nat, xid: nat, base: nat, index: nat, other: nat)
    requires c < |slots| && |slots| >= 3 && Intact(slots, index, other, base)
    requires var d := |slots|;
             var a, b := Wrap(c + 2, d), Wrap(Wrap(c + 2, d) + 1, d);
             index != a && index != b && Wrap(index + 1, d) != a && Wrap(index + 1, d) != b
    ensures Intact(Appended(slots, c, xid, base), index, other, base)
  {
    hide Wrap;
  }

  /** Going forward two slots makes what was i back i + 1 back, and clear of the slots just written. */
  lemma BackShifts(c: nat, i: nat, d: nat)
    requires c < d && 2 * i + 4 <= d
    ensures Back(Wrap(c + 2, d), i + 1, d) == Back(c, i, d)
    ensures var x, a, b := Back(c, i, d), Wrap(c + 2, d), Wrap(Wrap(c + 2, d) + 1, d);
            x != a && x != b && Wrap(x + 1, d) != a && Wrap(x + 1, d) != b
  {
    hide Wrap;
  }

  lemma AppendedKept(slots: seq<Slot>, c: nat, xid: nat, base: nat, history: seq<nat>, keep: nat, more: nat)
    requires c < |slots| && |slots| >= 3 && Kept(slots, c, base, history, keep) && more <= keep + 1 &&
             2 * more <= |slots|
    ensures Kept(Appended(slots, c, xid, base), Wrap(c + 2, |slots|), base, history + [xid], more)
  {
    hide Wrap, Appended, Intact;
    var d, after, next := |slots|, Appended(slots, c, xid, base), history + [xid];
    var index := Wrap(c + 2, d);
    forall i | 0 <= i < more ensures KeptAt(after, index, base, next, i) {
      if i == 0 {
        AppendedHere(slots, c, xid, base);
      } else {
        BackShifts(c, i - 1, d);
        assert KeptAt(slots, c, base, history, i - 1);
        AppendedElsewhere(slots, c, xid, base, Back(c, i - 1, d), history[|history| - i]);
      }
    }
  }

  lemma AppendedHere(slots: seq<Slot>, c: nat, xid: nat, base: nat)
    requires c < |slots| && |slots| >= 3
    ensures Back(Wrap(c + 2, |slots|), 0, |slots|) == Wrap(c + 2, |slots|)
    ensures Intact(Appended(slots, c, xid, base), Wrap(c + 2, |slots|), xid, base)
  {
    hide Wrap;
  }

  /** The scan and the verifier's index check agree with what was appended last. */
  lemma CurrentFound(slots: seq<Slot>, c: nat, xid: nat, base: nat, s: nat)
    requires Current(slots, c, xid, base) && NewestAt(slots, s)
    ensures s == Wrap(c + 1, |slots|) && slots[s] == Superblock(xid, xid + 1, c, Wrap(c + 2, |slots|), 2)
    ensures ExpectedIndex(s, |slots|, 2) == c
  {
    hide Wrap;
  }

  predicate MapAt(slots: seq<Slot>, index: nat, k: nat)
    requires |slots| > 0
  {
    slots[Wrap(index + k, |slots|)].CheckpointMap?
  }

  /** The first checkpoint map among a checkpoint's blocks. */
  method FindMap(slots: seq<Slot>, index: nat, len: nat) returns (r: Result<nat>)
    requires |slots| > 0
    ensures r.Ok? <==> exists k :: 0 <= k < len && MapAt(slots, index, k)
    ensures r.Ok? ==> exists k :: 0 <= k < len && MapAt(slots, index, k) && r.value == Wrap(index + k, |slots|) &&
                                  forall j :: 0 <= j < k ==> !MapAt(slots, index, j)
  {
    hide Wrap;
    for k := 0 to len
      invariant forall j :: 0 <= j < k ==> !MapAt(slots, index, j)
    {
      if MapAt(slots, index, k) {
        return Ok(Wrap(index + k, |slots|));
      }
    }
    r := Err(NotFound);
  }

  class Descriptors {
    const base: nat
    var slots: seq<Slot>
    /** Transaction ids of all checkpoints so far, and the index of the last. */
    ghost var history: seq<nat>
    ghost var at: nat

    ghost predicate Valid()
      reads this
    {
      && |history| > 0 && Current(slots, at, history[|history| - 1], base)
      && Kept(slots, at, base, history, Min(|history|, |slots| / 2))
    }

    /** A container with one checkpoint. */
    constructor (base: nat, slots: seq<Slot>, ghost at: nat, ghost xid: nat)
      requires Current(slots, at, xid, base)
      ensures Valid() && this.slots == slots && history == [xid] && this.at == at && this.base == base
    {
      this.base, this.slots, this.at, this.history := base, slots, at, [xid];
      new;
      assert Back(at, 0, |slots|) == at;
    }

    /**
     * Appends a checkpoint after the one whose superblock is in `slot`. Refused exactly when the
     * ring has only two slots; otherwise the new checkpoint is current, and of the history the
     * last floor(ring / 2) checkpoints are intact.
     */
    method Append(slot: nat, xid: nat) returns (r: Result<bool>)
      requires Valid() && slot < |slots| && NewestAt(slots, slot) && history[|history| - 1] < xid
      modifies this
      ensures Valid() && |slots| == |old(slots)|
      ensures r.Ok? <==> |slots| >= 3
      ensures r.Err? ==> slots == old(slots) && history == old(history)
      ensures r.Ok? ==> history == old(history) + [xid]
    {
      hide Wrap, Current, Kept, Appended, NewestAt;
      ghost var c, last := at, history[|history| - 1];
      CurrentFound(slots, c, last, base, slot);
      MapThere(slots, c, last, base);
      var d := |slots|;
      var sb := slots[slot];
      if sb.len != 2 {
        return Err(Unsupported);
      }
      var found := FindMap(slots, sb.index, sb.len);
      if found.Err? {
        return Err(NotFound);
      }
      var index := Wrap(sb.index + sb.len, d);
      if index == sb.index {
        return Err(NoSpace);
      }
      AppendedCurrent(slots, c, last, xid, base);
      AppendedKept(slots, c, xid, base, history, Min(|history|, d / 2), Min(|history| + 1, d / 2));
      AppendedIs(slots, c, xid, base);
      slots := slots[index := CheckpointMap(xid, base + index)];
      slots := slots[Wrap(index + 1, d) := Superblock(xid, xid + 1, index, Wrap(index + sb.len, d), sb.len)];
      history, at := history + [xid], index;
      r := Ok(true);
    }

    /** Mounts the newest checkpoint: the one appended last, and its index is what the verifier expects. */
    method Mount() returns (xid: nat, slot: nat)
      requires Valid()
      ensures xid == history[|history| - 1] && slot < |slots| && NewestAt(slots, slot)
      ensures slots[slot].Superblock? && ExpectedIndex(slot, |slots|, slots[slot].len) == slots[slot].index
    {
      hide Wrap, Current, Kept, Intact;
      CurrentThere(slots, at, history[|history| - 1], base);
      var best := Scan(slots);
      xid, slot := best.value.0, best.value.1;
      CurrentFound(slots, at, history[|history| - 1], base, slot);
    }
  }

  lemma CurrentThere(slots: seq<Slot>, c: nat, xid: nat, base: nat)
    requires Current(slots, c, xid, base)
    ensures |slots| >= 2 && slots[Wrap(c + 1, |slots|)].Superblock?
  {
    hide Wrap;
  }

  lemma MapThere(slots: seq<Slot>, c: nat, xid: nat, base: nat)
    requires Current(slots, c, xid, base)
    ensures |slots| >= 2 && c < |slots| && MapAt(slots, c, 0)
    ensures Wrap(c + 2, |slots|) == c <==> |slots| == 2
  {
    hide Wrap;
  }

  lemma AppendedIs(slots: seq<Slot>, c: nat, xid: nat, base: nat)
    requires c < |slots|
    ensures var d := |slots|;
            var index := Wrap(c + 2, d);
            Appended(slots, c, xid, base) ==
            slots[index := CheckpointMap(xid, base + index)][Wrap(index + 1, d) :=
                                                               Superblock(xid, xid + 1, index, Wrap(index + 2, d), 2)]
  {
    hide Wrap;
  }

  /**
   * Any number of updates on a ring of at least three slots, each mounting the newest checkpoint
   * and appending the next: none is refused, and every mount finds the one appended last.
   */
  method Updates(area: Descriptors, n: nat) returns (mounted: seq<nat>)
    requires area.Valid() && |area.slots| >= 3
    modifies area
    ensures area.Valid() && |area.history| == |old(area.history)| + n && |mounted| == n
    ensures forall i :: 0 <= i < n ==> mounted[i] == area.history[|old(area.history)| - 1 + i]
    ensures forall i :: 0 <= i < n ==> area.history[|old(area.history)| + i] == mounted[i] + 1
  {
    hide Wrap, Current, Kept, NewestAt;
    ghost var h0 := |area.history|;
    mounted := [];
    for i := 0 to n
      invariant area.Valid() && |area.slots| == |old(area.slots)| && |area.history| == h0 + i && |mounted| == i
      invariant forall k :: 0 <= k < i ==>
                  mounted[k] == area.history[h0 - 1 + k] && area.history[h0 + k] == mounted[k] + 1
    {
      var xid, slot := area.Mount();
      var r := area.Append(slot, xid + 1);
      mounted := mounted + [xid];
    }
  }

  /** With three slots the new superblock overwrites the previous checkpoint's map. */
  lemma ThreeSlotsLoseOne(slots: seq<Slot>, c: nat, was: nat, xid: nat, base: nat)
    requires Current(slots, c, was, base) && |slots| >= 3 && was < xid
    ensures Intact(Appended(slots, c, xid, base), c, was, base) <==> |slots| >= 4
  {
    hide Wrap;
  }
}
