/**
 * kernel/virtio_disk.c: requests to the disk through the descriptor table, the available ring and the used
 * ring of section 2.6 (split virtqueues) of VIRTIO 1.1.  What the driver does under vdisk_lock is one method;
 * the device's turns, which may come at any time and in any order, are methods too.
 */
module Virtio {

  const NUM: int := 8
  const WRAP: int := 0x1_0000            // ring indices are 16 bits wide

  /** chained is the NEXT flag. */
  datatype Desc = Desc(next: int, chained: bool)

  /** info: the buffer of the request whose chain starts here (-1 for none) and the device's status byte. */
  datatype Info = Info(buf: int, status: int)

  /** A request: the second and third descriptor of its chain, its buffer, and how far it has got. */
  datatype Phase = Queued | Taken | Completed | Delivered
  /** A turn of the device. */
  datatype Turn = TakeNext | Finished(h: int, status: int)

  datatype Request = Request(d1: int, d2: int, buf: int, phase: Phase)

  predicate Slot(i: int) { 0 <= i < NUM }

  // ----- descriptors and chains

  /** Each descriptor in use belongs to one chain: owner gives its first descriptor. */
  ghost predicate Shares(free: seq<bool>, reqs: map<int, Request>, owner: map<int, int>) {
    && |free| == NUM
    && (forall i :: Slot(i) ==> (free[i] <==> i !in owner))
    && (forall i :: i in owner ==>
          Slot(i) && owner[i] in reqs && (i == owner[i] || i == reqs[owner[i]].d1 || i == reqs[owner[i]].d2))
    && (forall h :: h in reqs ==>
          && h in owner && owner[h] == h && reqs[h].d1 in owner && owner[reqs[h].d1] == h && reqs[h].d2 in owner
          && owner[reqs[h].d2] == h)
    && (forall h :: h in reqs ==> reqs[h].d1 != h && reqs[h].d2 != h && reqs[h].d1 != reqs[h].d2)
  }

  /** The descriptors of each request are linked, and its info names its buffer. */
  ghost predicate LinkedUp(desc: seq<Desc>, info: seq<Info>, reqs: map<int, Request>) {
    && |desc| == NUM && |info| == NUM
    && (forall h :: h in reqs ==> Chain(desc, h, reqs[h]) && info[h].buf == reqs[h].buf)
  }

  ghost predicate Chain(desc: seq<Desc>, h: int, q: Request)
    requires |desc| == NUM
  {
    && Slot(h) && Slot(q.d1) && Slot(q.d2)
    && desc[h] == Desc(q.d1, true) && desc[q.d1] == Desc(q.d2, true) && !desc[q.d2].chained
  }

  /** Distinct requests are for distinct buffers; b->disk is set until the completion is delivered. */
  ghost predicate Buffers(reqs: map<int, Request>, onDisk: set<int>) {
    && (forall h, h' :: h in reqs && h' in reqs && reqs[h].buf == reqs[h'].buf ==> h == h')
    && (forall h :: h in reqs ==> (reqs[h].buf in onDisk <==> reqs[h].phase != Delivered))
    && (forall b :: b in onDisk ==> exists h :: h in reqs && reqs[h].buf == b)
  }

  // ----- the rings

  ghost predicate Distinct(s: seq<int>) {
    forall i, j :: 0 <= i < j < |s| ==> s[i] != s[j]
  }

  /** q lists the requests in phase ph. */
  ghost predicate Lists(q: seq<int>, reqs: map<int, Request>, ph: Phase) {
    Distinct(q) && (forall i :: 0 <= i < |q| ==> q[i] in reqs && reqs[q[i]].phase == ph)
      && (forall h :: h in reqs && reqs[h].phase == ph ==> h in q)
  }

  /** Ring slots from `from` on hold q. */
  ghost predicate Holds(ring: seq<int>, from: int, q: seq<int>) {
    |ring| == NUM && 0 <= from && forall k :: 0 <= k < |q| ==> ring[(from + k) % NUM] == q[k]
  }

  /** Not every descriptor can start a chain. */
  lemma {:induction false} FewHeads(q: seq<int>, reqs: map<int, Request>, ph: Phase, free: seq<bool>, owner: map<int,
    int>)
    requires Lists(q, reqs, ph) && Shares(free, reqs, owner)
    ensures |q| < NUM
  {
    if |q| > 0 {
      var d := reqs[q[0]].d1;
      var heads := Elements(q);
      ElementsSize(q);
      forall h | h in heads ensures Slot(h) && h != d {
        assert h in q && h in reqs && owner[h] == h;
        assert owner[d] == q[0];
      }
      assert d in owner;
      hide Lists, Shares;
      SmallSet(heads, d);
    }
  }

  lemma SmallSet(heads: set<int>, d: int)
    requires Slot(d) && d !in heads && forall h :: h in heads ==> Slot(h)
    ensures |heads| < NUM
  {
    var all := {0, 1, 2, 3, 4, 5, 6, 7};
    var most := heads + {d};
    forall x | x in most ensures x in all {
      assert Slot(x);
    }
    assert all == most + (all - most);
    assert |all| == |most| + |all - most|;
    assert |most| == |heads| + 1;
  }

  ghost function Elements(q: seq<int>): set<int> {
    set x | x in q
  }

  lemma {:induction false} ElementsSize(q: seq<int>)
    requires Distinct(q)
    ensures |Elements(q)| == |q|
  {
    if q != [] {
      var n := |q| - 1;
      ElementsSize(q[..n]);
      assert q[n] !in q[..n];
      assert q == q[..n] + [q[n]];
      assert Elements(q) == Elements(q[..n]) + {q[n]};
    }
  }

  /** The 16-bit index and its value modulo NUM advance together, also when it wraps. */
  lemma WrapModNum(i: int)
    requires 0 <= i < WRAP
    ensures (i + 1) % WRAP % NUM == (i % NUM + 1) % NUM
  {
  }

  function FreeSet(f: seq<bool>): set<int> {
    set i | 0 <= i < |f| && f[i]
  }

  /** f' is f with the descriptors in idx, all free in f, taken. */
  ghost predicate TakenFrom(f: seq<bool>, f': seq<bool>, idx: seq<int>) {
    && |f| == |f'| == NUM && (forall k :: 0 <= k < |idx| ==> Slot(idx[k]) && f[idx[k]])
    && (forall j :: Slot(j) ==> (f'[j] <==> f[j] && j !in idx))
  }

  lemma PutBack(f: seq<bool>, f': seq<bool>, idx: seq<int>, j: int)
    requires 0 <= j < |idx| && Distinct(idx) && TakenFrom(f, f', idx[j..])
    ensures TakenFrom(f, f'[idx[j] := true], idx[j + 1..])
  {
    assert idx[j..] == [idx[j]] + idx[j + 1..];
    assert idx[j..][0] == idx[j];
    var rest := idx[j + 1..];
    forall k | 0 <= k < |rest| ensures Slot(rest[k]) && f[rest[k]] {
      assert rest[k] == idx[j..][k + 1];
    }
  }

  // ----- what steps do to the requests

  lemma NewShares(free: seq<bool>, free': seq<bool>, reqs: map<int, Request>, owner: map<int, int>, idx: seq<int>,
        b: int)
    requires Shares(free, reqs, owner) && |idx| == 3 && TakenFrom(free, free', idx) && idx[0] != idx[1]
             && idx[0] != idx[2] && idx[1] != idx[2]
    ensures var h := idx[0];
            && h !in reqs && Slot(h) && Slot(idx[1]) && Slot(idx[2])
            && (forall k :: k in reqs ==> reqs[k].d1 !in idx && reqs[k].d2 !in idx && k !in idx)
            && Shares(free', reqs[h := Request(idx[1], idx[2], b, Queued)], owner[h := h][idx[1] := h][idx[2] := h])
  {
    forall i | i in idx ensures Slot(i) && free[i] && i !in owner {
      assert i == idx[0] || i == idx[1] || i == idx[2];
    }
    forall i | Slot(i) ensures free'[i] <==> free[i] && i != idx[0] && i != idx[1] && i != idx[2] {
    }
  }

  /** A chain is given back. */
  lemma GoneShares(free: seq<bool>, reqs: map<int, Request>, owner: map<int, int>, h: int)
    requires Shares(free, reqs, owner) && h in reqs
    ensures Slot(h) && Slot(reqs[h].d1) && Slot(reqs[h].d2) && !free[h] && !free[reqs[h].d1] && !free[reqs[h].d2]
    ensures Shares(free[h := true][reqs[h].d1 := true][reqs[h].d2 := true], reqs - {h},
              owner - {h, reqs[h].d1, reqs[h].d2})
  {
    var reqs', owner' := reqs - {h}, owner - {h, reqs[h].d1, reqs[h].d2};
    forall k | k in reqs'
      ensures k in owner' && owner'[k] == k && reqs'[k].d1 in owner' && owner'[reqs'[k].d1] == k
              && reqs'[k].d2 in owner' && owner'[reqs'[k].d2] == k
    {
      assert owner[k] == k && owner[reqs[k].d1] == k && owner[reqs[k].d2] == k;
    }
    forall i | i in owner'
      ensures owner'[i] in reqs' && (i == owner'[i] || i == reqs'[owner'[i]].d1 || i == reqs'[owner'[i]].d2)
    {
      assert owner[i] in reqs;
    }
  }

  /** Requests with phases changed. */
  ghost predicate SameChains(reqs: map<int, Request>, reqs': map<int, Request>) {
    && reqs'.Keys == reqs.Keys
    && (forall h :: h in reqs ==> reqs'[h].d1 == reqs[h].d1 && reqs'[h].d2 == reqs[h].d2 && reqs'[h].buf == reqs[h].buf)
  }

  lemma SameShares(free: seq<bool>, reqs: map<int, Request>, reqs': map<int, Request>, owner: map<int, int>)
    requires Shares(free, reqs, owner) && SameChains(reqs, reqs')
    ensures Shares(free, reqs', owner)
  {
  }

  lemma SameLinked(desc: seq<Desc>, info: seq<Info>, reqs: map<int, Request>, reqs': map<int, Request>)
    requires LinkedUp(desc, info, reqs) && SameChains(reqs, reqs')
    ensures LinkedUp(desc, info, reqs')
  {
  }

  /** Adding h to the end of a list, and taking its head off. */
  lemma ListsMore(q: seq<int>, reqs: map<int, Request>, reqs': map<int, Request>, h: int, ph: Phase)
    requires Lists(q, reqs, ph) && h !in q && reqs'.Keys == reqs.Keys + {h} && reqs'[h].phase == ph
    requires forall k :: k in reqs && k != h ==> reqs'[k] == reqs[k]
    ensures Lists(q + [h], reqs', ph)
  {
    forall k | k in reqs' && reqs'[k].phase == ph ensures k in q + [h] {
      if k != h {
        assert k in q;
      }
    }
  }

  lemma ListsLess(q: seq<int>, reqs: map<int, Request>, reqs': map<int, Request>, ph: Phase)
    requires Lists(q, reqs, ph) && q != [] && reqs'.Keys == reqs.Keys && reqs'[q[0]].phase != ph
    requires forall k :: k in reqs && k != q[0] ==> reqs'[k] == reqs[k]
    ensures Lists(q[1..], reqs', ph)
  {
    assert q == [q[0]] + q[1..];
    assert q[0] !in q[1..];
    forall i | 0 <= i < |q[1..]| ensures q[1..][i] in reqs' && reqs'[q[1..][i]].phase == ph {
      assert q[1..][i] == q[i + 1];
    }
  }

  lemma ListsSame(q: seq<int>, reqs: map<int, Request>, reqs': map<int, Request>, h: int, ph: Phase)
    requires Lists(q, reqs, ph) && (h in reqs ==> reqs[h].phase != ph) && (h in reqs' ==> reqs'[h].phase != ph)
    requires reqs'.Keys == reqs.Keys || reqs'.Keys == reqs.Keys + {h} || reqs'.Keys == reqs.Keys - {h}
    requires forall k :: k in reqs && k != h ==> k in reqs' && reqs'[k] == reqs[k]
    ensures Lists(q, reqs', ph)
  {
  }

  /** Filling the next slot of a ring that is not full. */
  lemma HoldsMore(ring: seq<int>, from: int, q: seq<int>, h: int, slot: int)
    requires Holds(ring, from, q) && |q| < NUM && slot == (from + |q|) % NUM
    ensures Holds(ring[slot := h], from, q + [h])
  {
    forall k | 0 <= k < |q + [h]| ensures ring[slot := h][(from + k) % NUM] == (q + [h])[k] {
      if k < |q| {
        DifferentSlot(from + k, from + |q|);
      }
    }
  }

  lemma DifferentSlot(a: int, b: int)
    requires 0 <= a < b < a + NUM
    ensures a % NUM != b % NUM
  {
  }

  lemma HoldsLess(ring: seq<int>, from: int, q: seq<int>, from': int)
    requires Holds(ring, from, q) && q != [] && 0 <= from' && (from' - from - 1) % NUM == 0
    ensures ring[from % NUM] == q[0] && Holds(ring, from', q[1..])
  {
    assert ring[(from + 0) % NUM] == q[0];
    forall k | 0 <= k < |q[1..]| ensures ring[(from' + k) % NUM] == q[1..][k] {
      assert ring[(from + (k + 1)) % NUM] == q[k + 1];
      Congruent(from' + k, from + (k + 1));
    }
  }

  lemma Congruent(a: int, b: int)
    requires (a - b) % NUM == 0
    ensures a % NUM == b % NUM
  {
  }

  class Disk {
    var free: seq<bool>
    var desc: seq<Desc>
    var info: seq<Info>
    var avail: seq<int>              // the available ring
    var availIdx: int                // how far the driver has filled it, 16 bits
    var elems: seq<int>              // the used ring, filled by the device
    var usedId: int                  // how far the device has filled it, 16 bits
    var usedIdx: int                 // how far the driver has looked
    var seen: int                    // how far the device has looked in the available ring, 16 bits
    var working: set<int>            // chains the device has taken and not completed
    var onDisk: set<int>             // the buffers b with b->disk set
    ghost var reqs: map<int, Request>
    ghost var owner: map<int, int>
    ghost var queued: seq<int>       // chains the device has not seen yet
    ghost var completed: seq<int>    // chains completed and not yet delivered

    ghost predicate Requests()
      reads this
    {
      Shares(free, reqs, owner) && LinkedUp(desc, info, reqs) && Buffers(reqs, onDisk) && working == AtWork(reqs)
    }

    static ghost function AtWork(reqs: map<int, Request>): set<int> {
      set h | h in reqs && reqs[h].phase == Taken
    }

    static lemma WorkMoves(reqs: map<int, Request>, h: int, ph: Phase)
      requires h in reqs
      ensures AtWork(reqs[h := reqs[h].(phase := ph)]) == if ph == Taken then AtWork(reqs) + {h} else AtWork(reqs) - {h}
      ensures reqs[h].phase != Taken ==> AtWork(reqs) - {h} == AtWork(reqs)
    {
    }

    static lemma WorkNew(reqs: map<int, Request>, h: int, q: Request)
      requires h !in reqs && q.phase == Queued
      ensures AtWork(reqs[h := q]) == AtWork(reqs)
    {
    }

    static lemma WorkGone(reqs: map<int, Request>, h: int)
      requires h in reqs && reqs[h].phase == Delivered
      ensures AtWork(reqs - {h}) == AtWork(reqs)
    {
    }

    ghost predicate Rings()
      reads this
    {
      && Lists(queued, reqs, Queued) && Lists(completed, reqs, Completed)
      && Holds(avail, seen, queued) && AvailAt(seen, |queued|, availIdx)
      && Holds(elems, usedIdx, completed) && UsedAt(usedIdx, |completed|, usedId)
    }

    /** The driver is n entries ahead of the device in the available ring; the device is n entries ahead of the
        driver in the used ring, whose indices are only compared modulo NUM. */
    static predicate AvailAt(seen: int, n: int, idx: int) {
      0 <= seen < WRAP && 0 <= idx < WRAP && idx == (seen + n) % WRAP
    }

    static predicate UsedAt(from: int, n: int, id: int) {
      0 <= from < NUM && 0 <= id < WRAP && id % NUM == (from + n) % NUM
    }

    ghost predicate Valid()
      reads this
    {
      Requests() && Rings()
    }

    constructor ()
      ensures Valid() && reqs == map[] && onDisk == {}
    {
      free := seq(NUM, i => true);
      desc, info := seq(NUM, i => Desc(0, false)), seq(NUM, i => Info(-1, 0));
      avail, elems := seq(NUM, i => 0), seq(NUM, i => 0);
      availIdx, usedId, usedIdx, seen := 0, 0, 0, 0;
      onDisk, reqs, owner, queued, completed, working := {}, map[], map[], [], [], {};
    }

    // ----- allocating and freeing descriptors

    /** The first free descriptor, or -1. */
    method AllocDesc() returns (i: int)
      requires |free| == NUM
      modifies this`free
      ensures i == -1 <==> forall j :: Slot(j) ==> !old(free)[j]
      ensures i == -1 ==> free == old(free)
      ensures i != -1 ==>
                Slot(i) && old(free)[i] && (forall j :: 0 <= j < i ==> !old(free)[j]) && free == old(free)[i := false]
    {
      i := 0;
      while i < NUM
        invariant 0 <= i <= NUM && free == old(free) && forall j :: 0 <= j < i ==> !free[j]
      {
        if free[i] {
          free := free[i := false];
          return;
        }
        i := i + 1;
      }
      i := -1;
    }

    /** The preconditions are the two panics. */
    method FreeDesc(i: int)
      requires |free| == NUM && Slot(i) && !free[i]
      modifies this`free
      ensures free == old(free)[i := true]
    {
      free := free[i := true];
    }

    /** Three descriptors, or none and no change; it fails exactly when fewer than three are free. */
    method Alloc3Desc() returns (ok: bool, idx: seq<int>)
      requires |free| == NUM
      modifies this`free
      ensures ok <==> |FreeSet(old(free))| >= 3
      ensures !ok ==> free == old(free)
      ensures ok ==>
                && |idx| == 3 && TakenFrom(old(free), free, idx) && idx[0] != idx[1] && idx[0] != idx[2]
                && idx[1] != idx[2]
    {
      idx := [];
      while |idx| < 3
        invariant |free| == NUM && |idx| <= 3 && TakenFrom(old(free), free, idx) && Distinct(idx)
                  && |FreeSet(old(free))| == |FreeSet(free)| + |idx|
        decreases 3 - |idx|
      {
        ghost var f := free;
        var i := AllocDesc();
        if i < 0 {
          assert FreeSet(f) == {};
          var j := 0;
          while j < |idx|
            invariant 0 <= j <= |idx| && |free| == NUM && TakenFrom(old(free), free, idx[j..])
          {
            assert idx[j] in idx[j..];
            FreeDesc(idx[j]);
            PutBack(old(free), free[idx[j] := false], idx, j);
            j := j + 1;
          }
          assert idx[j..] == [];
          assert free == old(free);
          return false, idx;
        }
        assert FreeSet(f) == FreeSet(free) + {i};
        assert i !in idx;
        idx := idx + [i];
      }
      ok := true;
    }

    // ----- a request

    /** virtio_disk_rw up to the wait for completion: b's request is queued, or there are too few free
        descriptors and nothing changes.  b has no request yet because its holder makes it. */
    method Submit(b: int) returns (ok: bool, h: int)
      requires Valid() && forall k :: k in reqs ==> reqs[k].buf != b
      modifies this`free, this`desc, this`info, this`avail, this`availIdx, this`onDisk, this`reqs, this`owner,
                 this`queued
      ensures Valid() && (ok <==> |FreeSet(old(free))| >= 3)
      ensures !ok ==> free == old(free) && reqs == old(reqs) && onDisk == old(onDisk) && queued == old(queued)
      ensures ok ==>
                && h !in old(reqs) && h in reqs && reqs[h].buf == b && reqs[h].phase == Queued
                && reqs == old(reqs)[h := reqs[h]]
      ensures ok ==> queued == old(queued) + [h] && onDisk == old(onDisk) + {b}
    {
      hide Lists, Holds, Shares, LinkedUp, Buffers, TakenFrom, FreeSet, Slot, AtWork, UsedAt, AvailAt;
      SharesSize();
      var idx;
      ok, idx := Alloc3Desc();
      if !ok {
        return false, -1;
      }
      h := idx[0];
      Enqueue(old(free), idx, b);
    }

    /** The rest of a request's start, given its three descriptors. */
    method Enqueue(ghost f: seq<bool>, idx: seq<int>, b: int)
      requires Shares(f, reqs, owner) && LinkedUp(desc, info, reqs) && Buffers(reqs, onDisk) && working == AtWork(reqs)
               && Rings()
      requires |idx| == 3 && TakenFrom(f, free, idx) && idx[0] != idx[1] && idx[0] != idx[2] && idx[1] != idx[2]
      requires forall k :: k in reqs ==> reqs[k].buf != b
      modifies this`desc, this`info, this`avail, this`availIdx, this`onDisk, this`reqs, this`owner, this`queued
      ensures Requests() && Rings()
      ensures idx[0] !in old(reqs) && reqs == old(reqs)[idx[0] := Request(idx[1], idx[2], b, Queued)]
      ensures queued == old(queued) + [idx[0]] && onDisk == old(onDisk) + {b}
    {
      hide Lists, Holds, Shares, LinkedUp, Buffers, TakenFrom, Slot, AtWork, UsedAt, AvailAt;
      EnqueueRest(f, idx, b);
      NewShares(f, free, reqs, owner, idx, b);
      ghost var reqs1 := reqs[idx[0] := Request(idx[1], idx[2], b, Queued)];
      ghost var owner1 := owner[idx[0] := idx[0]][idx[1] := idx[0]][idx[2] := idx[0]];
      Announce(idx, b, reqs1);
      owner, reqs := owner1, reqs1;
    }

    /** Write the chain, mark the buffer and tell the device. */
    method Announce(idx: seq<int>, b: int, ghost reqs1: map<int, Request>)
      requires LinkedUp(desc, info, reqs) && |idx| == 3 && Slot(idx[0]) && Slot(idx[1]) && Slot(idx[2])
      requires idx[0] != idx[1] && idx[0] != idx[2] && idx[1] != idx[2] && idx[0] !in reqs
      requires forall k :: k in reqs ==> reqs[k].d1 !in idx && reqs[k].d2 !in idx && k !in idx
      requires Lists(queued, reqs, Queued) && |queued| < NUM && Holds(avail, seen, queued)
               && AvailAt(seen, |queued|, availIdx)
      requires reqs1 == reqs[idx[0] := Request(idx[1], idx[2], b, Queued)]
      modifies this`desc, this`info, this`avail, this`availIdx, this`onDisk, this`queued
      ensures LinkedUp(desc, info, reqs1) && onDisk == old(onDisk) + {b}
      ensures Lists(queued, reqs1, Queued) && Holds(avail, seen, queued) && AvailAt(seen, |queued|, availIdx)
              && queued == old(queued) + [idx[0]]
    {
      hide Lists, Holds, LinkedUp, Slot, AvailAt;
      WriteChain(idx, b);
      onDisk := onDisk + {b};
      Publish(idx[0], reqs1);
    }

    lemma EnqueueRest(f: seq<bool>, idx: seq<int>, b: int)
      requires Shares(f, reqs, owner) && Buffers(reqs, onDisk) && Rings()
      requires |idx| == 3 && TakenFrom(f, free, idx) && idx[0] != idx[1] && idx[0] != idx[2] && idx[1] != idx[2]
      requires forall k :: k in reqs ==> reqs[k].buf != b
      ensures |queued| < NUM && idx[0] !in reqs
      ensures var r := reqs[idx[0] := Request(idx[1], idx[2], b, Queued)];
              Buffers(r, onDisk + {b}) && Lists(completed, r, Completed) && AtWork(r) == AtWork(reqs)
    {
      hide Lists, Holds, Shares, LinkedUp, Buffers, TakenFrom, Slot, AtWork, UsedAt, AvailAt;
      NewShares(f, free, reqs, owner, idx, b);
      FewHeads(queued, reqs, Queued, f, owner);
      var q := Request(idx[1], idx[2], b, Queued);
      NewBuffers(reqs, onDisk, idx[0], q);
      WorkNew(reqs, idx[0], q);
      ListsSame(completed, reqs, reqs[idx[0] := q], idx[0], Completed);
    }

    /** Format the three descriptors. */
    method WriteChain(idx: seq<int>, b: int)
      requires LinkedUp(desc, info, reqs) && |idx| == 3 && Slot(idx[0]) && Slot(idx[1]) && Slot(idx[2])
               && idx[0] != idx[1] && idx[0] != idx[2] && idx[1] != idx[2]
      requires forall k :: k in reqs ==> reqs[k].d1 !in idx && reqs[k].d2 !in idx && k !in idx
      modifies this`desc, this`info
      ensures LinkedUp(desc, info, reqs[idx[0] := Request(idx[1], idx[2], b, Queued)])
    {
      NewLinked(desc, info, reqs, idx, b);
      desc := desc[idx[0] := Desc(idx[1], true)][idx[1] := Desc(idx[2], true)][idx[2] := Desc(0, false)];
      info := info[idx[0] := Info(b, 0)];
    }

    /** Tell the device the first index of the chain. */
    method Publish(h: int, ghost reqs1: map<int, Request>)
      requires Lists(queued, reqs, Queued) && |queued| < NUM && Holds(avail, seen, queued)
               && AvailAt(seen, |queued|, availIdx)
      requires h !in reqs && h in reqs1 && reqs1[h].phase == Queued && reqs1 == reqs[h := reqs1[h]]
      modifies this`avail, this`availIdx, this`queued
      ensures Lists(queued, reqs1, Queued) && Holds(avail, seen, queued) && AvailAt(seen, |queued|, availIdx)
              && queued == old(queued) + [h]
    {
      hide Lists, AvailAt;
      QueuedOnly(queued, reqs, h);
      NextAvail(seen, |queued|, availIdx);
      HoldsMore(avail, seen, queued, h, availIdx % NUM);
      hide Holds;
      RingSize(avail, seen, queued);
      avail := avail[availIdx % NUM := h];
      availIdx := (availIdx + 1) % WRAP;
      ListsMore(queued, reqs, reqs1, h, Queued);
      queued := queued + [h];
    }

    static lemma RingSize(ring: seq<int>, from: int, q: seq<int>)
      requires Holds(ring, from, q)
      ensures |ring| == NUM
    {
    }

    lemma SharesSize()
      requires Valid()
      ensures |free| == NUM && |desc| == NUM && |info| == NUM && |avail| == NUM && |elems| == NUM
    {
    }

    static lemma NewLinked(desc: seq<Desc>, info: seq<Info>, reqs: map<int, Request>, idx: seq<int>, b: int)
      requires LinkedUp(desc, info, reqs) && |idx| == 3 && Slot(idx[0]) && Slot(idx[1]) && Slot(idx[2])
               && idx[0] != idx[1] && idx[0] != idx[2] && idx[1] != idx[2]
      requires forall k :: k in reqs ==> reqs[k].d1 !in idx && reqs[k].d2 !in idx && k !in idx
      ensures LinkedUp(desc[idx[0] := Desc(idx[1], true)][idx[1] := Desc(idx[2], true)][idx[2] := Desc(0, false)],
                info[idx[0] := Info(b, 0)],
                       reqs[idx[0] := Request(idx[1], idx[2], b, Queued)])
    {
      var desc', reqs' := desc[idx[0] := Desc(idx[1], true)][idx[1] := Desc(idx[2], true)][idx[2] := Desc(0, false)],
            reqs[idx[0] := Request(idx[1], idx[2], b, Queued)];
      forall k | k in reqs' ensures Chain(desc', k, reqs'[k]) {
        if k != idx[0] {
          assert Chain(desc, k, reqs[k]);
          assert idx[0] in idx && idx[1] in idx && idx[2] in idx;
        }
      }
    }

    static lemma NewBuffers(reqs: map<int, Request>, onDisk: set<int>, h: int, r: Request)
      requires Buffers(reqs, onDisk) && h !in reqs && r.phase == Queued && forall k :: k in reqs ==>
                 reqs[k].buf != r.buf
      ensures Buffers(reqs[h := r], onDisk + {r.buf})
    {
      var reqs' := reqs[h := r];
      forall b | b in onDisk + {r.buf} ensures exists k :: k in reqs' && reqs'[k].buf == b {
        if b == r.buf {
          assert h in reqs' && reqs'[h].buf == b;
        } else {
          var k :| k in reqs && reqs[k].buf == b;
          assert k in reqs' && reqs'[k].buf == b;
        }
      }
    }

    static lemma QueuedOnly(q: seq<int>, reqs: map<int, Request>, h: int)
      requires Lists(q, reqs, Queued) && h !in reqs
      ensures h !in q
    {
    }

    static lemma NextAvail(seen: int, n: int, idx: int)
      requires AvailAt(seen, n, idx) && 0 <= n < NUM
      ensures 0 <= idx && idx % NUM == (seen + n) % NUM && AvailAt(seen, n + 1, (idx + 1) % WRAP)
    {
    }

    // ----- the device

    /** The device sees something new in the available ring exactly when requests are queued, and takes the
        oldest one. */
    method Take() returns (h: int)
      requires Valid() && seen != availIdx
      modifies this`seen, this`reqs, this`queued, this`working
      ensures Valid() && |old(queued)| > 0 && h == old(queued)[0] && queued == old(queued)[1..]
      ensures h in old(reqs) && reqs == old(reqs)[h := old(reqs)[h].(phase := Taken)]
    {
      hide Lists, Holds, Shares, LinkedUp, Buffers, AtWork, UsedAt, AvailAt;
      SharesSize();
      h := avail[seen % NUM];
      NewSeen(seen, |queued|, availIdx);
      HeadListed(queued, reqs, Queued);
      HoldsLess(avail, seen, queued, (seen + 1) % WRAP);
      ghost var r := reqs[h := reqs[h].(phase := Taken)];
      ListsLess(queued, reqs, r, Queued);
      ListsSame(completed, reqs, r, h, Completed);
      SameShares(free, reqs, r, owner);
      SameLinked(desc, info, reqs, r);
      SamePhases(reqs, Taken, onDisk, h);
      WorkMoves(reqs, h, Taken);
      working := working + {h};
      seen := (seen + 1) % WRAP;
      queued := queued[1..];
      reqs := r;
    }

    static lemma NewSeen(seen: int, n: int, idx: int)
      requires AvailAt(seen, n, idx) && 0 <= n && seen != idx
      ensures n > 0 && 0 <= seen && 0 <= (seen + 1) % WRAP && ((seen + 1) % WRAP - seen - 1) % NUM == 0
              && AvailAt((seen + 1) % WRAP, n - 1, idx)
    {
    }

    static lemma HeadListed(q: seq<int>, reqs: map<int, Request>, ph: Phase)
      requires Lists(q, reqs, ph) && q != []
      ensures q[0] in reqs && reqs[q[0]].phase == ph
    {
    }

    static lemma SamePhases(reqs: map<int, Request>, ph: Phase, onDisk: set<int>, h: int)
      requires Buffers(reqs, onDisk) && h in reqs && reqs[h].phase != Delivered && ph != Delivered
      ensures Buffers(reqs[h := reqs[h].(phase := ph)], onDisk)
    {
      var reqs' := reqs[h := reqs[h].(phase := ph)];
      forall b | b in onDisk ensures exists k :: k in reqs' && reqs'[k].buf == b {
        var k :| k in reqs && reqs[k].buf == b;
        assert k in reqs' && reqs'[k].buf == b;
      }
    }

    /** The device finishes any request it has taken. */
    method Complete(h: int, status: int)
      requires Valid() && h in reqs && reqs[h].phase == Taken
      modifies this`info, this`elems, this`usedId, this`reqs, this`completed, this`working
      ensures Valid() && completed == old(completed) + [h] && reqs == old(reqs)[h := old(reqs)[h].(phase := Completed)]
      ensures Slot(h) && |old(info)| == NUM && info == old(info)[h := old(info)[h].(status := status)]
    {
      hide Lists, Holds, Shares, Buffers, LinkedUp, AtWork, UsedAt, AvailAt, Slot;
      SharesSize();
      StatusLinked(desc, info, reqs, h, status);
      CompleteRing(h);
      CompleteRest(h);
      ghost var r := reqs[h := reqs[h].(phase := Completed)];
      var slot, next := usedId % NUM, (usedId + 1) % WRAP;
      working, info, elems, usedId := working - {h}, info[h := info[h].(status := status)], elems[slot := h], next;
      completed, reqs := completed + [h], r;
    }

    lemma CompleteRing(h: int)
      requires Valid() && h in reqs && reqs[h].phase == Taken
      ensures 0 <= usedId % NUM < |elems| && Holds(elems[usedId % NUM := h], usedIdx, completed + [h])
      ensures UsedAt(usedIdx, |completed + [h]|, (usedId + 1) % WRAP)
    {
      hide Lists, Holds, Shares, Buffers, LinkedUp, AtWork, UsedAt, AvailAt, Slot;
      SharesSize();
      FewHeads(completed, reqs, Completed, free, owner);
      NextUsed(usedIdx, |completed|, usedId);
      HoldsMore(elems, usedIdx, completed, h, usedId % NUM);
    }

    lemma CompleteRest(h: int)
      requires Valid() && h in reqs && reqs[h].phase == Taken
      ensures var r := reqs[h := reqs[h].(phase := Completed)];
              && Lists(completed + [h], r, Completed) && Lists(queued, r, Queued)
              && Shares(free, r, owner) && Buffers(r, onDisk) && AtWork(r) == AtWork(reqs) - {h}
    {
      hide Lists, Holds, Shares, Buffers, LinkedUp, AtWork, UsedAt, AvailAt, Slot;
      var r := reqs[h := reqs[h].(phase := Completed)];
      NotListed(completed, reqs, h, Completed);
      ListsMore(completed, reqs, r, h, Completed);
      ListsSame(queued, reqs, r, h, Queued);
      SameShares(free, reqs, r, owner);
      SamePhases(reqs, Completed, onDisk, h);
      WorkMoves(reqs, h, Completed);
    }

    static lemma StatusLinked(desc: seq<Desc>, info: seq<Info>, reqs: map<int, Request>, h: int, status: int)
      requires LinkedUp(desc, info, reqs) && h in reqs
      ensures Slot(h) && LinkedUp(desc, info[h := info[h].(status := status)], reqs[h := reqs[h].(phase := Completed)])
    {
      assert Chain(desc, h, reqs[h]);
    }

    static lemma NotListed(q: seq<int>, reqs: map<int, Request>, h: int, ph: Phase)
      requires Lists(q, reqs, ph) && h in reqs && reqs[h].phase != ph
      ensures h !in q
    {
    }

    static lemma NextUsed(from: int, n: int, id: int)
      requires UsedAt(from, n, id) && 0 <= n < NUM
      ensures 0 <= id && id % NUM == (from + n) % NUM && UsedAt(from, n + 1, (id + 1) % WRAP)
    {
      WrapModNum(id);
    }

    // ----- completion

    /** The driver's test for new entries in the used ring is right: it compares modulo NUM, and fewer than NUM
        completions can be outstanding. */
    lemma PendingExact()
      requires Valid()
      ensures usedIdx % NUM != usedId % NUM <==> completed != []
    {
      FewHeads(completed, reqs, Completed, free, owner);
      PendingTest(usedIdx, |completed|, usedId);
    }

    static lemma UsedSlot(from: int, n: int, id: int)
      requires UsedAt(from, n, id)
      ensures 0 <= from < NUM
    {
    }

    static lemma PendingTest(from: int, n: int, id: int)
      requires UsedAt(from, n, id) && 0 <= n < NUM
      ensures from % NUM != id % NUM <==> n > 0
    {
      if n > 0 {
        DifferentSlot(from, from + n);
      }
    }

    /** One turn of virtio_disk_intr's loop: the oldest completion is delivered to the buffer that issued it. */
    method Deliver() returns (ok: bool)
      requires Valid() && completed != []
      modifies this`onDisk, this`usedIdx, this`reqs, this`completed
      ensures ok <==> completed != old(completed)
      ensures !ok ==> reqs == old(reqs) && onDisk == old(onDisk) && usedIdx == old(usedIdx)
      ensures !ok ==> var h := old(completed)[0]; Slot(h) && |info| == NUM && info[h].status != 0
      ensures Valid()
      ensures ok ==>
                var h := old(completed)[0]; h in old(reqs) && reqs == old(reqs)[h := old(reqs)[h].(phase := Delivered)]
      ensures ok ==>
                var h := old(completed)[0]; onDisk == old(onDisk) - {reqs[h].buf} && completed == old(completed)[1..]
    {
      hide Lists, Holds, Shares, Buffers, AtWork, UsedAt, AvailAt;
      SharesSize();
      HeadListed(completed, reqs, Completed);
      UsedSlot(usedIdx, |completed|, usedId);
      HoldsLess(elems, usedIdx, completed, usedIdx + 1);
      ghost var h := completed[0];
      assert Chain(desc, h, reqs[h]) && info[h].buf == reqs[h].buf;
      hide LinkedUp, Chain;
      var id := elems[usedIdx];
      if info[id].status != 0 {
        return false;
      }
      Delivering(reqs, onDisk, h);
      WorkMoves(reqs, h, Delivered);
      ghost var r := reqs[h := reqs[h].(phase := Delivered)];
      ListsLess(completed, reqs, r, Completed);
      ListsSame(queued, reqs, r, h, Queued);
      SameShares(free, reqs, r, owner);
      SameLinked(desc, info, reqs, r);
      Shorter(completed);
      onDisk := onDisk - {info[id].buf};
      NextSlot(elems, usedIdx, completed, usedId);
      usedIdx := (usedIdx + 1) % NUM;
      completed := completed[1..];
      reqs := r;
      ok := true;
    }

    static lemma Shorter(q: seq<int>)
      requires q != []
      ensures q[1..] != q
    {
      assert |q[1..]| != |q|;
    }

    static lemma NextSlot(ring: seq<int>, from: int, q: seq<int>, id: int)
      requires Holds(ring, from, q) && q != [] && UsedAt(from, |q|, id)
      ensures var from' := (from + 1) % NUM; Holds(ring, from', q[1..]) && UsedAt(from', |q[1..]|, id)
    {
      HoldsLess(ring, from, q, (from + 1) % NUM);
    }

    static lemma Delivering(reqs: map<int, Request>, onDisk: set<int>, h: int)
      requires Buffers(reqs, onDisk) && h in reqs && reqs[h].phase == Completed
      ensures Buffers(reqs[h := reqs[h].(phase := Delivered)], onDisk - {reqs[h].buf})
    {
      var reqs' := reqs[h := reqs[h].(phase := Delivered)];
      forall b | b in onDisk - {reqs[h].buf} ensures exists k :: k in reqs' && reqs'[k].buf == b {
        var k :| k in reqs && reqs[k].buf == b;
        assert k in reqs' && reqs'[k].buf == b;
      }
    }

    /** The requests not yet delivered. */
    static ghost function Open(reqs: map<int, Request>): set<int> {
      set h | h in reqs && reqs[h].phase != Delivered
    }

    /** Turns of the device; one that it cannot take is passed over. */
    method DeviceTurns(turns: seq<Turn>)
      requires Valid()
      modifies this`info, this`elems, this`usedId, this`seen, this`reqs, this`queued, this`completed, this`working
      ensures Valid() && reqs.Keys == old(reqs).Keys && Open(reqs) == old(Open(reqs)) && old(completed) <= completed
    {
      hide Requests, Rings;
      for i := 0 to |turns|
        invariant Valid() && reqs.Keys == old(reqs).Keys && Open(reqs) == old(Open(reqs)) && old(completed) <= completed
      {
        ghost var r := reqs;
        match turns[i]
        case TakeNext =>
          if seen != availIdx {
            QueuedHead();
            var h := Take();
            MovesOn(r, h, Taken);
          }
        case Finished(h, status) =>
          if h in working {
            WorkingTaken(h);
            Complete(h, status);
            MovesOn(r, h, Completed);
          }
      }
    }

    lemma WorkingTaken(h: int)
      requires Valid() && h in working
      ensures h in reqs && reqs[h].phase == Taken
    {
    }

    lemma QueuedHead()
      requires Valid() && seen != availIdx
      ensures queued != [] && queued[0] in reqs && reqs[queued[0]].phase == Queued
    {
      NewSeen(seen, |queued|, availIdx);
    }

    static lemma MovesOn(r: map<int, Request>, h: int, ph: Phase)
      requires h in r && r[h].phase != Delivered && ph != Delivered
      ensures Open(r[h := r[h].(phase := ph)]) == Open(r)
    {
    }

    /** virtio_disk_intr, with turns of the device before each turn of its loop: the completions that were there
        are delivered first and in order, and every completion is delivered once.  ok is false where the source
        panics because the device reported an error. */
    method Intr(script: seq<seq<Turn>>) returns (ok: bool, ghost delivered: seq<int>)
      requires Valid()
      modifies this`info, this`elems, this`usedId, this`seen, this`queued, this`onDisk, this`usedIdx,
               this`reqs, this`completed, this`working
      ensures Valid() && reqs.Keys == old(reqs).Keys
      ensures Distinct(delivered) && Gave(old(reqs), reqs, delivered)
      ensures ok ==> completed == [] && old(completed) <= delivered
      ensures forall h :: h in reqs ==> (reqs[h].buf in onDisk <==> reqs[h].phase != Delivered)
      ensures !ok ==> completed != [] && Slot(completed[0]) && |info| == NUM && info[completed[0]].status != 0
    {
      hide Requests, Rings, Open;
      delivered := [];
      GaveNone(reqs);
      var n := 0;
      PendingExact();
      while usedIdx % NUM != usedId % NUM
        invariant Valid() && (usedIdx % NUM != usedId % NUM <==> completed != [])
        invariant Giving(old(reqs), old(completed), delivered)
        decreases |Open(reqs)|
      {
        var turns := if n < |script| then script[n] else [];
        n := n + 1;
        ok, delivered := IntrTurn(turns, old(reqs), old(completed), delivered);
        BuffersNow();
        if !ok {
          return;
        }
        PendingExact();
      }
      assert delivered + [] == delivered;
      BuffersNow();
      ok := true;
    }

    /** Since the requests were r0 and the completions c0, those delivered have been. */
    ghost predicate Giving(r0: map<int, Request>, c0: seq<int>, delivered: seq<int>)
      reads this`reqs, this`completed
    {
      reqs.Keys == r0.Keys && Distinct(delivered) && Gave(r0, reqs, delivered) && c0 <= delivered + completed
    }

    /** The body of the loop, after some turns of the device. */
    method IntrTurn(turns: seq<Turn>, ghost r0: map<int, Request>, ghost c0: seq<int>, ghost delivered: seq<int>)
      returns (ok: bool, ghost delivered': seq<int>)
      requires Valid() && completed != [] && Giving(r0, c0, delivered)
      modifies this`info, this`elems, this`usedId, this`seen, this`queued, this`onDisk, this`usedIdx,
               this`reqs, this`completed, this`working
      ensures Valid() && Giving(r0, c0, delivered') && (ok ==> |Open(reqs)| < |old(Open(reqs))|)
      ensures !ok ==> completed != [] && Slot(completed[0]) && |info| == NUM && info[completed[0]].status != 0
    {
      hide Requests, Rings, Open, Slot;
      ghost var c := completed;
      DeviceTurns(turns);
      PrefixMore(c0, delivered, c, completed);
      ghost var r, h, rest := reqs, completed[0], completed;
      CompletedHead();
      delivered' := delivered;
      ok := Deliver();
      if ok {
        GiveOne(r0, r, delivered, h);
        assert delivered + rest == (delivered + [h]) + rest[1..];
        delivered' := delivered + [h];
      }
    }

    /** Of the requests that were open, exactly those listed no longer are. */
    static ghost predicate Gave(r0: map<int, Request>, r: map<int, Request>, delivered: seq<int>) {
      (forall h :: h in delivered ==> h in Open(r0) && h !in Open(r))
        && (forall h :: h in Open(r0) && h !in delivered ==> h in Open(r)) && Open(r) <= Open(r0)
    }

    static lemma GaveNone(r: map<int, Request>)
      ensures Gave(r, r, [])
    {
    }

    static lemma PrefixMore(a: seq<int>, delivered: seq<int>, c: seq<int>, c': seq<int>)
      requires a <= delivered + c && c <= c'
      ensures a <= delivered + c'
    {
      assert delivered + c <= delivered + c';
    }

    static lemma GiveOne(r0: map<int, Request>, r: map<int, Request>, delivered: seq<int>, h: int)
      requires Gave(r0, r, delivered) && Distinct(delivered) && h in r && r[h].phase == Completed
      ensures var r' := r[h := r[h].(phase := Delivered)];
              Gave(r0, r', delivered + [h]) && Distinct(delivered + [h]) && |Open(r')| < |Open(r)|
    {
      var r' := r[h := r[h].(phase := Delivered)];
      assert h in Open(r);
      assert Open(r') == Open(r) - {h};
      assert h !in delivered;
    }

    lemma CompletedHead()
      requires Valid() && completed != []
      ensures completed[0] in reqs && reqs[completed[0]].phase == Completed
    {
    }

    lemma BuffersNow()
      requires Valid()
      ensures forall h :: h in reqs ==> (reqs[h].buf in onDisk <==> reqs[h].phase != Delivered)
    {
    }

    /** Free a chain by following the links. */
    method FreeChain(h: int)
      requires |free| == NUM && |desc| == NUM && h in reqs && Chain(desc, h, reqs[h])
      requires !free[h] && !free[reqs[h].d1] && !free[reqs[h].d2] && reqs[h].d1 != h && reqs[h].d2 != h
               && reqs[h].d1 != reqs[h].d2
      modifies this`free
      ensures free == old(free)[h := true][reqs[h].d1 := true][reqs[h].d2 := true]
    {
      var i := h;
      ghost var n := 0;
      while true
        invariant 0 <= n <= 2 && |free| == NUM
        invariant n == 0 ==> i == h && free == old(free)
        invariant n == 1 ==> i == reqs[h].d1 && free == old(free)[h := true]
        invariant n == 2 ==> i == reqs[h].d2 && free == old(free)[h := true][reqs[h].d1 := true]
        decreases 2 - n
      {
        FreeDesc(i);
        if desc[i].chained {
          i := desc[i].next;
        } else {
          break;
        }
        n := n + 1;
      }
    }

    /** The end of virtio_disk_rw, once b->disk is clear: the request's own chain is freed. */
    method Finish(h: int)
      requires Valid() && h in reqs && reqs[h].buf !in onDisk
      modifies this`free, this`info, this`reqs, this`owner
      ensures Valid() && reqs == old(reqs) - {h} && onDisk == old(onDisk)
      ensures |FreeSet(free)| == |FreeSet(old(free))| + 3
    {
      hide Lists, Holds, Shares, Buffers, FreeSet, LinkedUp, AtWork, UsedAt, AvailAt;
      SharesSize();
      Ready(h);
      GoneShares(free, reqs, owner, h);
      FreedThree(free, h, reqs[h].d1, reqs[h].d2);
      ListsSame(queued, reqs, reqs - {h}, h, Queued);
      ListsSame(completed, reqs, reqs - {h}, h, Completed);
      GoneBuffers(reqs, onDisk, h);
      WorkGone(reqs, h);
      GoneLinked(desc, info, reqs, h);
      info := info[h := info[h].(buf := -1)];
      FreeChain(h);
      owner := owner - {h, reqs[h].d1, reqs[h].d2};
      reqs := reqs - {h};
    }

    lemma Ready(h: int)
      requires Valid() && h in reqs && reqs[h].buf !in onDisk
      ensures reqs[h].phase == Delivered && Chain(desc, h, reqs[h])
      ensures reqs[h].d1 != h && reqs[h].d2 != h && reqs[h].d1 != reqs[h].d2
    {
    }

    static lemma FreedThree(f: seq<bool>, a: int, b: int, c: int)
      requires |f| == NUM && Slot(a) && Slot(b) && Slot(c) && a != b && a != c && b != c && !f[a] && !f[b] && !f[c]
      ensures |FreeSet(f[a := true][b := true][c := true])| == |FreeSet(f)| + 3
    {
      assert FreeSet(f[a := true][b := true][c := true]) == FreeSet(f) + {a} + {b} + {c};
    }

    static lemma GoneBuffers(reqs: map<int, Request>, onDisk: set<int>, h: int)
      requires Buffers(reqs, onDisk) && h in reqs && reqs[h].phase == Delivered
      ensures Buffers(reqs - {h}, onDisk)
    {
      var reqs' := reqs - {h};
      forall b | b in onDisk ensures exists k :: k in reqs' && reqs'[k].buf == b {
        var k :| k in reqs && reqs[k].buf == b;
        assert k in reqs' && reqs'[k].buf == b;
      }
    }

    static lemma GoneLinked(desc: seq<Desc>, info: seq<Info>, reqs: map<int, Request>, h: int)
      requires LinkedUp(desc, info, reqs) && h in reqs && Slot(h)
      ensures LinkedUp(desc, info[h := info[h].(buf := -1)], reqs - {h})
    {
    }
  }
}
