/**
 * kernel/pipe.c.  Each method is what one process does with the pipe's lock held: from acquiring it, or from
 * waking up, to releasing it or going to sleep.  Any interleaving of readers, writers and closers is a
 * sequence of these.
 */
module Pipe {

  const PIPESIZE: int := 512
  const UINT: int := 0x1_0000_0000

  /** How a turn ends: the call returns a count, or -1, or the process goes to sleep and will go on later. */
  datatype Outcome = Returned(n: int) | Failed | Slept

  function Min(a: int, b: int): int { if a < b then a else b }

  /** The wrapping counters are compared rightly: the pipe is empty, or full. */
  lemma Counters(removed: int, added: int)
    requires 0 <= removed <= added <= removed + PIPESIZE
    ensures removed % UINT == added % UINT <==> added == removed
    ensures added % UINT == (removed % UINT + PIPESIZE) % UINT <==> added == removed + PIPESIZE
  {
  }

  lemma NextCounter(k: int)
    requires 0 <= k
    ensures (k + 1) % UINT == (k % UINT + 1) % UINT && k % UINT % PIPESIZE == k % PIPESIZE
  {
    var a, r := k / UINT, k % UINT;
    assert k == PIPESIZE * (0x80_0000 * a) + r;
    Multiple(0x80_0000 * a, r);
  }

  lemma Multiple(x: int, r: int)
    ensures (PIPESIZE * x + r) % PIPESIZE == r % PIPESIZE
  {
  }

  lemma OtherSlot(a: int, b: int)
    requires a < b < a + PIPESIZE
    ensures a % PIPESIZE != b % PIPESIZE
  {
  }

  class Pipe {
    const data: array<int>
    var nread: int
    var nwrite: int
    var readopen: bool
    var writeopen: bool
    ghost var added: seq<int>          // all bytes ever written
    ghost var removed: seq<int>        // all bytes ever read
    ghost var readers: set<int>        // processes asleep on nread
    ghost var writers: set<int>        // processes asleep on nwrite

    /** The bytes in the pipe are those added and not removed, in order; there are at most PIPESIZE of them. */
    ghost predicate Valid()
      reads this, data
    {
      && data.Length == PIPESIZE
      && removed <= added && |added| <= |removed| + PIPESIZE
      && nread == |removed| % UINT && nwrite == |added| % UINT
      && (forall k :: |removed| <= k < |added| ==> data[k % PIPESIZE] == added[k])
    }

    ghost predicate Empty()
      reads this
    {
      |added| == |removed|
    }

    ghost predicate Full()
      reads this
    {
      |added| == |removed| + PIPESIZE
    }

    /** Nobody sleeps without reason. */
    ghost predicate NoLostWakeup()
      reads this
    {
      (readers != {} ==> Empty() && writeopen) && (writers != {} ==> Full() && readopen)
    }

    constructor ()
      ensures fresh(data) && Valid() && NoLostWakeup() && added == [] && removed == [] && readopen && writeopen
              && readers == {} && writers == {}
    {
      data := new int[PIPESIZE];
      nread, nwrite, readopen, writeopen := 0, 0, true, true;
      added, removed, readers, writers := [], [], {}, {};
    }

    /** One byte into a pipe that is not full. */
    method Put(ch: int)
      requires Valid() && !Full()
      modifies this`nwrite, this`added, data
      ensures Valid() && added == old(added) + [ch]
    {
      NextCounter(|added|);
      forall k | |removed| <= k < |added| ensures k % PIPESIZE != |added| % PIPESIZE {
        OtherSlot(k, |added|);
      }
      data[nwrite % PIPESIZE] := ch;
      nwrite := (nwrite + 1) % UINT;
      added := added + [ch];
    }

    /** The oldest byte out of a pipe that is not empty. */
    method Get() returns (ch: int)
      requires Valid() && !Empty()
      modifies this`nread, this`removed
      ensures Valid() && ch == added[|old(removed)|] && removed == old(removed) + [ch]
    {
      NextCounter(|removed|);
      ch := data[nread % PIPESIZE];
      nread := (nread + 1) % UINT;
      removed := removed + [ch];
    }

    /** A sleeping reader is left asleep: the pipe is empty, the writer has more than a pipeful to write and can
        read that much of it, and it will find itself killed, or the read end closed, when the pipe is full. */
    ghost predicate LeavesReaderAsleep(n: int, i: int, avail: int, killed: bool)
      reads this
    {
      readers != {} && (!readopen || killed) && i + PIPESIZE < n && i + PIPESIZE <= avail
    }

    /** A turn of pipewrite by process p, which has written i of the bytes src so far; avail of them can be read.
        It adds the bytes from i on until all are in, the pipe is full or a byte cannot be read, and wakes the
        readers unless it fails. */
    method Pipewrite(p: int, src: seq<int>, i: int, avail: int, killed: bool) returns (out: Outcome, i': int)
      requires Valid() && 0 <= i <= |src| && 0 <= avail && writeopen
      modifies this`nwrite, this`added, this`readers, this`writers, data
      ensures Valid() && removed == old(removed)
      ensures i <= i' <= |src| && added == old(added) + src[i..i']
      ensures out.Returned? ==>
                out.n == i' && (i' == |src| || (i' >= avail && !Full())) && readers == {} && writers == old(writers)
      ensures !out.Returned? ==> i' < |src| && Full()
      ensures out.Failed? <==> i' < |src| && Full() && (!readopen || killed)
      ensures out.Failed? ==> readers == old(readers) && writers == old(writers)
      ensures out.Slept? ==> readers == {} && writers == old(writers) + {p}
      ensures old(NoLostWakeup()) ==> (NoLostWakeup() <==> !old(LeavesReaderAsleep(|src|, i, avail, killed)))
    {
      i' := i;
      assert src[i..i] == [];
      while i' < |src|
        invariant i <= i' <= |src| && Valid() && added == old(added) + src[i..i'] && removed == old(removed)
        invariant readers == old(readers) && writers == old(writers)
        invariant old(Full()) ==> i' == i
        invariant i' <= i || i' <= avail
      {
        Counters(|removed|, |added|);
        if nwrite == (nread + PIPESIZE) % UINT {
          if !readopen || killed {
            return Failed, i';
          }
          readers := {};
          writers := writers + {p};
          return Slept, i';
        }
        if i' >= avail {
          break;
        }
        Put(src[i']);
        assert src[i..i'] + [src[i']] == src[i..i' + 1];
        i' := i' + 1;
      }
      readers := {};
      out := Returned(i');
    }

    /** A turn of piperead by process p asking for n bytes, of which room can be stored.  The bytes got are the
        oldest in the pipe; one that cannot be stored is lost. */
    method Piperead(p: int, n: int, room: int, killed: bool) returns (out: Outcome, got: seq<int>)
      requires Valid() && 0 <= room && readopen
      modifies this`nread, this`removed, this`readers, this`writers
      ensures Valid() && added == old(added) && (old(NoLostWakeup()) ==> NoLostWakeup())
      ensures out.Failed? <==> old(Empty()) && writeopen && killed
      ensures out.Slept? <==> old(Empty()) && writeopen && !killed
      ensures !out.Returned? ==> removed == old(removed) && got == [] && writers == old(writers)
      ensures out.Failed? ==> readers == old(readers)
      ensures out.Slept? ==> readers == old(readers) + {p}
      ensures out.Returned? ==> out.n == |got| && writers == {} && readers == old(readers)
      ensures out.Returned? ==> |got| == Min(if n < 0 then 0 else n, Min(room, |added| - |old(removed)|))
      ensures out.Returned? ==> old(removed) + got <= removed && |removed| <= |old(removed)| + |got| + 1
      ensures out.Returned? ==>
                (|removed| == |old(removed)| + |got| + 1 <==> room < n && room < |added| - |old(removed)|)
    {
      got := [];
      Counters(|removed|, |added|);
      if nread == nwrite && writeopen {
        if killed {
          return Failed, [];
        }
        readers := readers + {p};
        return Slept, [];
      }
      var i := 0;
      while i < n
        invariant 0 <= i && (i <= n || i == 0) && Valid() && i == |got| && |got| <= room
                  && removed == old(removed) + got
        invariant readers == old(readers)
      {
        Counters(|removed|, |added|);
        if nread == nwrite {
          break;
        }
        var ch := Get();
        if i >= room {
          break;
        }
        got := got + [ch];
        i := i + 1;
      }
      writers := {};
      out := Returned(i);
    }

    /** pipeclose by the last holder of one end; nobody is in a call on that end. */
    method Pipeclose(writable: bool)
      requires Valid() && (writable ==> writers == {}) && (!writable ==> readers == {})
      modifies this`readopen, this`writeopen, this`readers, this`writers
      ensures Valid() && added == old(added) && removed == old(removed) && (old(NoLostWakeup()) ==> NoLostWakeup())
      ensures writable ==> !writeopen && readopen == old(readopen) && readers == {}
      ensures !writable ==> !readopen && writeopen == old(writeopen) && writers == {}
    {
      if writable {
        writeopen := false;
        readers := {};
      } else {
        readopen := false;
        writers := {};
      }
    }

    /** kill makes a sleeping process runnable. */
    method Kill(p: int)
      requires Valid()
      modifies this`readers, this`writers
      ensures Valid() && (old(NoLostWakeup()) ==> NoLostWakeup()) && readers == old(readers) - {p}
              && writers == old(writers) - {p}
    {
      readers, writers := readers - {p}, writers - {p};
    }
  }

  /** A run that loses a wakeup: a reader goes to sleep on an empty pipe, and a writer that has been killed
      fills it and gives up. */
  method KilledWriterLosesWakeup() returns (pi: Pipe)
    ensures pi.Valid() && pi.Full() && pi.readers == {1} && !pi.NoLostWakeup()
  {
    pi := new Pipe();
    var out, got := pi.Piperead(1, 1, 1, false);
    var src := seq(PIPESIZE + 1, k => 7);
    var n;
    out, n := pi.Pipewrite(2, src, 0, |src|, true);
  }
}
