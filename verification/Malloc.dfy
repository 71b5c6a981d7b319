/**
 malloc, free and morecore of user/umalloc.c, updating the header words in place.  The ghost fields
 say what the words mean: which blocks are free, in list order, and which are in use.
 */
module Malloc {
  import opened FreeList

  /** The smallest number of headers morecore asks for. */
  const MIN_CORE: int := 4096

  const INT_MAX: int := 0x7fff_ffff

  /** The largest request whose growth fits the int that sbrk takes. */
  const MAX_REQUEST: int := 0x8000_0000 - 32

  /** Headers needed for nbytes of payload. */
  function Units(nbytes: int): int {
    (nbytes + HDR - 1) / HDR + 1
  }

  /** What an int parameter receives when passed the 64-bit value x. */
  function ToInt(x: int): int {
    var w := x % 0x1_0000_0000;
    if w < 0x8000_0000 then w else w - 0x1_0000_0000
  }

  /** The size morecore passes to sbrk for a request of nbytes, before conversion to int. */
  function Growth(nbytes: int): int {
    HDR * Core(Units(nbytes))
  }

  /** The headers morecore gets for a request of nunits. */
  function Core(nunits: int): int { if nunits < MIN_CORE then MIN_CORE else nunits }

  /** Units are enough for a header and the payload, and the least number that is. */
  lemma RoomFor(nbytes: int)
    requires 0 <= nbytes < 0x1_0000_0000
    ensures Units(nbytes) >= 1 && HDR * (Units(nbytes) - 1) < nbytes + HDR <= HDR * Units(nbytes)
    ensures HDR * Units(nbytes) <= INT_MAX <==> nbytes <= MAX_REQUEST
  {
  }

  /** sbrk is asked for the number of bytes that malloc then believes it has exactly when the request
      is at most MAX_REQUEST; nbytes ranges over all values of the parameter's type uint. */
  lemma GrowthFitsExactly(nbytes: int)
    requires 0 <= nbytes < 0x1_0000_0000
    ensures ToInt(Growth(nbytes)) == Growth(nbytes) <==> nbytes <= MAX_REQUEST
  {
  }

  predicate Byte(a: int, lo: int, hi: int) { lo <= a < hi }

  ghost function Bytes(lo: int, hi: int): iset<int> { iset a | Byte(a, lo, hi) }

  /** sbrk refuses what morecore asks for. */
  predicate Refused(brk: int, nunits: int, gap: nat, full: bool) {
    var n := ToInt(HDR * Core(nunits));
    n > 0 && (full || brk + gap + n > INT_MAX)
  }

  class Allocator {
    const base: int              // address of the static header
    var freep: int               // 0 before the first malloc
    var ptr: Words
    var size: Words
    var brk: int
    ghost var ring: seq<int>
    ghost var live: Words
    ghost var claimed: iset<int> // the bytes that malloc takes sbrk to have given
    ghost var top: int           // an upper bound of them
    ghost var obtained: iset<int>  // those that it has given and not taken back
    ghost var grows: nat         // successful calls of sbrk

    ghost function Mem(): Arena
      reads this
    {
      Arena(ptr, size, ring, live, claimed, top)
    }

    /** Free blocks and blocks in use tile what malloc takes to be its memory. */
    ghost predicate Valid()
      reads this
    {
      && 0 < base <= top && brk <= INT_MAX && (forall a :: a in obtained ==> a < brk)
      && (freep == 0 ==> live == map[] && claimed == iset{})
      && (freep != 0 ==> Good(Mem(), base) && freep in ring)
    }

    /** The memory is there. */
    ghost predicate Backed()
      reads this
    {
      base < top <= brk && claimed == obtained
    }

    /** A process whose static data includes the header at address b and whose memory ends at top. */
    constructor (b: int, top: int)
      requires 0 < b < top <= INT_MAX
      ensures Valid() && Backed() && live == map[] && obtained == iset{} && base == b && brk == top
    {
      base, freep, ptr, size, brk := b, 0, map[], map[], top;
      ring, live, claimed, this.top, obtained, grows := [], map[], iset{}, top, iset{}, 0;
    }

    /** The search of free: p ends at the free block before bp. */
    method FindPlace(bp: int) returns (p: int, ghost t: int)
      requires Linked(ptr, ring) && Ordered(size, ring) && freep in ring && bp !in ring && ring[0] < bp
      ensures Between(ring, t, bp) && p == ring[t]
    {
      ghost var n := |ring|;
      ghost var i :| 0 <= i < n && ring[i] == freep;
      ghost var goal := SomeBetween(ring, size, bp, n);
      p := freep;
      Follow(ptr, ring, i);
      while !(bp > p && bp < ptr[p])
        invariant 0 <= i < n && p == ring[i] && p in ptr
        invariant ptr[p] == ring[Succ(i, n)]
        decreases Dist(i, goal, n)
      {
        if p >= ptr[p] && (bp > p || bp < ptr[p]) {
          break;
        }
        assert i != goal;
        i := Succ(i, n);
        p := ptr[p];
        Follow(ptr, ring, i);
      }
      t := i;
    }

    /** The pointer and size updates of free. */
    method Relink(p: int, bp: int)
      requires p in ptr && p in size && bp in size && ptr[p] in ptr && ptr[p] in size && p != bp
      modifies this`ptr, this`size
      ensures (ptr, size) == FreeWords(old(ptr), old(size), p, bp)
    {
      var nxt := ptr[p];
      if bp + HDR * size[bp] == nxt {
        size := size[bp := size[bp] + size[nxt]];
        ptr := ptr[bp := ptr[nxt]];
      } else {
        ptr := ptr[bp := nxt];
      }
      if p + HDR * size[p] == bp {
        size := size[p := size[p] + size[bp]];
        ptr := ptr[p := ptr[bp]];
      } else {
        ptr := ptr[p := bp];
      }
    }

    /** Give a block back.  It becomes free and merges with the free blocks it touches; every other
        block in use stays as it is. */
    method Free(ap: int)
      requires Valid() && ap - HDR in live
      modifies this`freep, this`ptr, this`size, this`ring, this`live
      ensures Valid() && freep != 0
      ensures live == old(live) - {ap - HDR}
      ensures Covers(Mem(), ap - HDR, ap - HDR + HDR * old(live)[ap - HDR])
    {
      hide Good, Covers, Linked, Ordered, FreeWords, Between, Freed;
      var bp := ap - HDR;
      ghost var x := Mem();
      GoodParts(x, base, bp);
      var p;
      ghost var t;
      p, t := FindPlace(bp);
      FreeCorrect(x, base, t, bp);
      Relink(p, bp);
      freep := p;
      ring := Freed(x, t, bp).ring;
      live := live - {bp};
      assert Mem() == Freed(x, t, bp);
    }

    /** The system call.  It gives n bytes above everything given before, or refuses, because memory is full or has no
        room; with a negative n it takes the last -n bytes back if there are so many.  Other code of the process may
        have moved the break up by gap before. */
    method Sbrk(n: int, gap: nat, full: bool) returns (p: int)
      requires 0 < brk <= INT_MAX && forall a :: a in obtained ==> a < brk
      modifies this`brk, this`obtained
      ensures p == -1 <==> n > 0 && (full || old(brk) + gap + n > INT_MAX)
      ensures p == -1 ==> brk == old(brk) && obtained == old(obtained)
      ensures p != -1 ==> old(brk) <= p && brk <= INT_MAX && forall a :: a in obtained ==> a < brk
      ensures p != -1 && n > 0 ==> brk == p + n && obtained == old(obtained) + Bytes(p, p + n)
      ensures n <= 0 ==> brk == if p + n >= 0 then p + n else p
      ensures n <= 0 ==> forall a :: a in obtained <==> a in old(obtained) && a < brk
    {
      var at := if brk + gap <= INT_MAX then brk + gap else brk;
      p := at;
      if n > 0 {
        if full || brk + gap + n > INT_MAX {
          p := -1;
        } else {
          brk, obtained := at + n, obtained + Bytes(at, at + n);
        }
      } else {
        brk := if at + n >= 0 then at + n else at;
        obtained := iset a | a in obtained && a < brk;
      }
    }

    /** A piece of nu headers at hp becomes a free block. */
    method AddPiece(hp: int, nu: int)
      requires Valid() && freep != 0 && top <= hp && base < hp && 1 <= nu
      modifies this`freep, this`ptr, this`size, this`ring, this`live, this`claimed, this`top
      ensures Valid() && freep != 0 && live == old(live) && claimed == old(claimed) + Span(hp, nu)
      ensures top == hp + HDR * nu && forall n :: n <= nu ==> HasSome(n)
    {
      hide Good, Covers;
      ghost var x := Mem();
      size := size[hp := nu];
      ExtendCorrect(x, base, hp, nu);
      live, claimed, top := live[hp := nu], claimed + Span(hp, nu), hp + HDR * nu;
      assert Mem() == Extend(x, hp, nu);
      Free(hp + HDR);
      assert live == x.live;
      GoodSized(Mem(), base);
      forall n | n <= nu ensures HasSome(n) {
        CoversBig(Mem(), hp, nu, n);
      }
    }

    ghost predicate HasSome(n: int)
      reads this
    {
      exists g :: HasBlock(Mem(), n, g)
    }

    /** Some free block is large enough for n headers. */
    ghost predicate Fits(n: int)
      reads this
    {
      freep != 0 && HasSome(n)
    }

    /** sbrk gave n headers above everything given before. */
    ghost predicate GotCore(was: iset<int>, end: int, n: int)
      reads this`brk, this`obtained
    {
      end <= brk - HDR * n && obtained == was + Bytes(brk - HDR * n, brk)
    }

    /** More memory for a request of nunits headers; gap and full are what sbrk meets. */
    method Morecore(nunits: int, gap: nat, full: bool) returns (p: int)
      requires Valid() && Backed() && freep != 0 && 1 <= nunits
      modifies this
      ensures Valid() && freep != 0 && live == old(live)
      ensures p == 0 <==> Refused(old(brk), nunits, gap, full)
      ensures p == 0 ==>
                && Backed() && ring == old(ring) && size == old(size) && obtained == old(obtained)
                && grows == old(grows) && freep == old(freep) && brk == old(brk)
      ensures p != 0 ==> p == freep && grows == old(grows) + 1 && HasSome(nunits)
      ensures HDR * nunits <= INT_MAX ==> Backed()
      ensures p != 0 && HDR * nunits <= INT_MAX ==> GotCore(old(obtained), old(brk), Core(nunits))
    {
      hide Good, HasSome, Span;
      var nu := if nunits < MIN_CORE then MIN_CORE else nunits;
      var hp := Sbrk(ToInt(HDR * nu), gap, full);
      if hp == -1 {
        return 0;
      }
      grows := grows + 1;
      AddPiece(hp, nu);
      SpanBytes(hp, nu);
      return freep;
    }

    static lemma SpanBytes(p: int, n: int)
      ensures Bytes(p, p + HDR * n) == Span(p, n)
    {
      forall a ensures Byte(a, p, p + HDR * n) <==> InSpan(a, p, n) {
      }
    }

    /** First call: the list is the static header alone. */
    method Start()
      requires Valid() && freep == 0
      modifies this`freep, this`ptr, this`size, this`ring
      ensures Valid() && freep == base && ring == [base]
    {
      ptr, size, freep := ptr[base := base], size[base := 0], base;
      ring := [base];
    }

    /** Unlink the free block p, which follows prevp: it fits exactly. */
    method TakeWhole(prevp: int, p: int, ghost k: int) returns (r: int)
      requires freep != 0 && Valid() && 1 <= k < |ring| && p == ring[k] && prevp == ring[k - 1]
      requires p in ptr && p in size
      modifies this`freep, this`ptr, this`ring, this`live
      ensures Valid() && freep != 0 && r > 0
      ensures r - HDR !in old(live) && live == old(live)[r - HDR := size[p]]
    {
      hide Good, Linked, Sized;
      ghost var x := Mem();
      TakeCorrect(x, base, k, size[p]);
      ptr := ptr[prevp := ptr[p]];
      ring, live := Take(x, k).ring, Take(x, k).live;
      assert Mem() == Take(x, k);
      freep := prevp;
      return p + HDR;
    }

    /** Cut nunits headers off the end of the free block p, which follows prevp. */
    method TakeTail(prevp: int, p: int, nunits: int, ghost k: int) returns (r: int)
      requires freep != 0 && Valid() && 1 <= k < |ring| && p == ring[k] && prevp == ring[k - 1]
      requires p in size && 1 <= nunits < size[p]
      modifies this`freep, this`size, this`live
      ensures Valid() && freep != 0 && r > 0
      ensures r - HDR !in old(live) && live == old(live)[r - HDR := nunits]
    {
      hide Good, Sized;
      ghost var x := Mem();
      SplitCorrect(x, base, k, nunits);
      size := size[p := size[p] - nunits];
      var q := p + HDR * size[p];
      size := size[q := nunits];
      live := Split(x, k, nunits).live;
      assert Mem() == Split(x, k, nunits);
      freep := prevp;
      return q + HDR;
    }

    /** Use the free block p, found to follow prevp, for a request of nunits headers. */
    method Carve(prevp: int, p: int, nunits: int, ghost k: int) returns (r: int)
      requires freep != 0 && Valid() && 1 <= nunits && HasBlock(Mem(), nunits, k)
      requires p == ring[k] && prevp == ring[k - 1] && p in ptr
      modifies this`freep, this`ptr, this`size, this`ring, this`live
      ensures Valid() && freep != 0 && r > 0
      ensures r - HDR !in old(live) && live == old(live)[r - HDR := nunits]
    {
      hide Good;
      if size[p] == nunits {
        r := TakeWhole(prevp, p, k);
      } else {
        r := TakeTail(prevp, p, nunits, k);
      }
    }

    /** Where the search of malloc begins. */
    method SearchStart() returns (prevp: int, ghost i: int)
      requires Valid()
      modifies this`freep, this`ptr, this`size, this`ring
      ensures Valid() && freep != 0 && prevp == freep
      ensures if old(freep) == 0 then ring == [base] else Mem() == old(Mem())
      ensures 0 <= i < |ring| && ring[i] == prevp && prevp in ptr && ptr[prevp] == ring[Succ(i, |ring|)]
    {
      hide Good;
      if freep == 0 {
        Start();
      }
      prevp := freep;
      i :| 0 <= i < |ring| && ring[i] == prevp;
      GoodAt(Mem(), base, i);
    }

    lemma BlockIff(n: int, j: int)
      requires freep != 0 && Valid() && 0 <= j < |ring| && ring[j] in size && 1 <= n
      ensures HasBlock(Mem(), n, j) <==> size[ring[j]] >= n
    {
      hide Good;
      GoodAt(Mem(), base, j);
    }

    /** The search came from position f by position i, and no block on its way, that of f left out, is large enough. */
    ghost predicate Passed(n: int, f: int, i: int)
      reads this
    {
      forall g :: 0 <= g < |ring| && 0 < Dist(f, g, |ring|) <= Dist(f, i, |ring|) ==> !HasBlock(Mem(), n, g)
    }

    lemma PassedMore(n: int, f: int, i: int)
      requires 0 <= f < |ring| && 0 <= i < |ring| && Passed(n, f, i) && !HasBlock(Mem(), n, Succ(i, |ring|))
      ensures Succ(i, |ring|) != f ==> Passed(n, f, Succ(i, |ring|))
      ensures Succ(i, |ring|) == f ==> !HasSome(n)
    {
    }

    /** A block large enough, at position g, comes before position f or there on the way on from position i. */
    ghost predicate Ahead(n: int, f: int, i: int, g: int)
      reads this
    {
      HasBlock(Mem(), n, g) && Dist(Succ(i, |ring|), g, |ring|) <= Dist(Succ(i, |ring|), f, |ring|)
    }

    lemma AheadStart(n: int, f: int, g: int)
      requires 0 <= f < |ring| && HasBlock(Mem(), n, g)
      ensures Ahead(n, f, f, g)
    {
    }

    /** A turn of the search goes on unless it is at f, and it is not while there is a block ahead. */
    lemma Onward(n: int, f: int, i: int, g: int)
      requires 0 <= f < |ring| && 0 <= i < |ring| && !HasBlock(Mem(), n, Succ(i, |ring|))
      ensures var j := Succ(i, |ring|);
              && 0 <= j < |ring| && (j != f ==> Dist(Succ(j, |ring|), f, |ring|) < Dist(j, f, |ring|))
              && (Ahead(n, f, i, g) ==> j != f && Ahead(n, f, j, g)) && Dist(j, f, |ring|) >= 0
    {
    }

    /** Allocate a block with room for nbytes; gap and full are what sbrk meets if it is called, which is when no free
        block is large enough.  The result is 0 and nothing changes for the caller exactly when sbrk is called and
        refuses; otherwise it is the payload of a block that was not in use, of room for nbytes, apart from all other
        blocks in use (Valid).  The block is memory of the process if and only if nbytes is at most MAX_REQUEST. */
    method Malloc(nbytes: int, gap: nat, full: bool) returns (r: int)
      requires Valid() && Backed() && 0 <= nbytes < 0x1_0000_0000
      modifies this
      ensures Valid()
      ensures r == 0 <==> !old(Fits(Units(nbytes))) && Refused(old(brk), Units(nbytes), gap, full)
      ensures r == 0 ==> live == old(live) && Backed()
      ensures grows == old(grows) + if old(Fits(Units(nbytes))) || r == 0 then 0 else 1
      ensures grows == old(grows) ==> brk == old(brk) && obtained == old(obtained)
      ensures grows != old(grows) && nbytes <= MAX_REQUEST ==> GotCore(old(obtained), old(brk), Core(Units(nbytes)))
      ensures r != 0 ==>
                && r - HDR !in old(live) && live == old(live)[r - HDR := Units(nbytes)]
                && r + nbytes <= r - HDR + HDR * Units(nbytes)
      ensures r != 0 ==> (Span(r - HDR, Units(nbytes)) <= obtained <==> nbytes <= MAX_REQUEST)
      ensures r != 0 ==> (Backed() <==> nbytes <= MAX_REQUEST)
    {
      hide Good, Span, Refused, Units, GotCore, Passed, Core, HasBlock, Ahead, Dist;
      var nunits := Units(nbytes);
      RoomFor(nbytes);
      var prevp;
      ghost var i;
      prevp, i := SearchStart();
      var p := ptr[prevp];
      ghost var f, grown, g := i, false, 0;
      StartSmall(nunits, f);
      assert old(Fits(nunits)) <==> HasSome(nunits);
      while true
        invariant Valid() && freep != 0 && live == old(live)
        invariant !grown || nbytes <= MAX_REQUEST ==> Backed()
        invariant !grown ==> brk == old(brk) && obtained == old(obtained) && Passed(nunits, f, i)
        invariant !grown ==> (old(Fits(nunits)) <==> HasSome(nunits))
        invariant grown ==> !old(Fits(nunits)) && !Refused(old(brk), nunits, gap, full)
        invariant grown && nbytes <= MAX_REQUEST ==> GotCore(old(obtained), old(brk), Core(nunits))
        invariant 0 <= i < |ring| && ring[i] == prevp && p == ring[Succ(i, |ring|)]
        invariant 0 <= f < |ring| && ring[f] == freep
        invariant grows == old(grows) + if grown then 1 else 0
        invariant grown ==> Ahead(nunits, f, i, g)
        decreases !grown, Dist(Succ(i, |ring|), f, |ring|)
      {
        ghost var j := Succ(i, |ring|);
        GoodAt(Mem(), base, j);
        BlockIff(nunits, j);
        if size[p] >= nunits {
          r := Carve(prevp, p, nunits, j);
          BlockThere(r - HDR, nunits, nbytes);
          return;
        }
        Onward(nunits, f, i, g);
        if !grown {
          PassedMore(nunits, f, i);
        }
        if p == freep {
          p := Morecore(nunits, gap, full);
          if p == 0 {
            return 0;
          }
          grown := true;
          assert HasSome(nunits);
          g :| HasBlock(Mem(), nunits, g);
          j :| 0 <= j < |ring| && ring[j] == p;
          f := j;
          AheadStart(nunits, f, g);
          GoodAt(Mem(), base, j);
        }
        prevp, i := p, j;
        p := ptr[p];
      }
    }

    lemma StartSmall(n: int, f: int)
      requires freep != 0 && Valid() && 0 <= f < |ring| && 1 <= n
      ensures Passed(n, f, f) && (ring == [base] ==> !HasSome(n))
    {
      hide Good;
    }

    /** A block in use is memory of the process if it is not too large for any process to have. */
    lemma BlockThere(b: int, nunits: int, nbytes: int)
      requires Valid() && freep != 0 && b in live && live[b] == nunits
      requires 0 <= nbytes < 0x1_0000_0000 && nunits == Units(nbytes) && (nbytes <= MAX_REQUEST ==> Backed())
      ensures Span(b, nunits) <= obtained <==> nbytes <= MAX_REQUEST
      ensures Backed() <==> nbytes <= MAX_REQUEST
    {
      RoomFor(nbytes);
      LiveObtained(Mem(), base, b);
      hide Good;
      if nbytes > MAX_REQUEST {
        assert InSpan(b + HDR * nunits - 1, b, nunits);
        assert b + HDR * nunits - 1 in Span(b, nunits) && b + HDR * nunits - 1 !in obtained;
      }
    }
  }

  /** A request of the largest uint, in a process with room for one header more, is granted: sbrk is asked for 16
      bytes, and malloc returns a block of 2^28 + 1 headers. */
  method HugeRequest(b: int, end: int) returns (a: Allocator, r: int)
    requires 0 < b < end <= INT_MAX - HDR
    ensures ToInt(Growth(0xffff_ffff)) == HDR
    ensures a.Valid() && !a.Backed() && r - HDR in a.live && a.live[r - HDR] == 0x1000_0001
    ensures !(Span(r - HDR, 0x1000_0001) <= a.obtained)
  {
    hide Good, Span, Allocator.Backed, Allocator.Valid;
    a := new Allocator(b, end);
    r := a.Malloc(0xffff_ffff, 0, false);
  }
}
