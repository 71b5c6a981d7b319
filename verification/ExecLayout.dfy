/**
 * What kernel/exec.c accepts and where it puts things, said without following its loops: which program headers pass,
 * how much memory they make, which byte is found where, and which argument lists fit the stack page.
 */
module ExecLayout {
  import opened PageRam
  import opened PageSteps
  import opened Exec

  // ----- program headers

  /** A segment that is loaded and ends after address 0. */
  predicate Reaches(s: Segment) { s.load && s.vaddr + s.memsz > 0 }

  /** The end of the program is the largest end of a loaded segment. */
  lemma {:induction false} EndIsLargest(segs: seq<Segment>)
    ensures EndOf(segs) >= 0
    ensures forall k :: 0 <= k < |segs| && segs[k].load ==> segs[k].vaddr + segs[k].memsz <= EndOf(segs)
    ensures EndOf(segs) > 0 ==>
              exists k :: 0 <= k < |segs| && Reaches(segs[k]) && segs[k].vaddr + segs[k].memsz == EndOf(segs)
  {
    if segs != [] {
      var most, s := segs[..|segs| - 1], segs[|segs| - 1];
      EndIsLargest(most);
      if EndOf(segs) > 0 {
        if s.load && s.vaddr + s.memsz > EndOf(most) {
          assert Reaches(segs[|segs| - 1]);
        } else {
          var k :| 0 <= k < |most| && Reaches(most[k]) && most[k].vaddr + most[k].memsz == EndOf(most);
          assert Reaches(segs[k]);
        }
      }
    }
  }

  /** The conditions on program header k: it can be read and, if it is to be loaded, its file part fits its memory part
      and is all there, it starts at a page boundary, it ends below 2^64, and it or an earlier one is not empty. */
  ghost predicate Accepted(segs: seq<Segment>, k: int)
    requires 0 <= k < |segs|
  {
    var s := segs[k];
    s.readable && (s.load ==>
      && s.filesz <= s.memsz && s.filesz <= |s.bytes| && s.vaddr % PGSIZE == 0 && s.vaddr + s.memsz < UINT64
      && exists j :: 0 <= j <= k && Reaches(segs[j]))
  }

  /** The headers pass if and only if each of them does. */
  lemma {:induction false} SegmentsOkIff(segs: seq<Segment>)
    ensures SegmentsOk(segs) <==> forall k :: 0 <= k < |segs| ==> Accepted(segs, k)
  {
    if segs != [] {
      var n, most := |segs| - 1, segs[..|segs| - 1];
      SegmentsOkIff(most);
      forall k | 0 <= k < n ensures Accepted(segs, k) <==> Accepted(most, k) {
        AcceptedEarly(segs, k);
      }
      AcceptedLast(segs);
      assert SegmentsOk(segs) <==> SegmentsOk(most) && Accepted(segs, n);
    }
  }

  lemma AcceptedEarly(segs: seq<Segment>, k: int)
    requires 0 <= k < |segs| - 1
    ensures Accepted(segs, k) <==> Accepted(segs[..|segs| - 1], k)
  {
    var most := segs[..|segs| - 1];
    if j :| 0 <= j <= k && Reaches(segs[j]) {
      assert Reaches(most[j]);
    }
    if j :| 0 <= j <= k && Reaches(most[j]) {
      assert Reaches(segs[j]);
    }
  }

  lemma AcceptedLast(segs: seq<Segment>)
    requires segs != []
    ensures Accepted(segs, |segs| - 1) <==> SegmentOk(segs[|segs| - 1], EndOf(segs[..|segs| - 1]))
  {
    var n, most := |segs| - 1, segs[..|segs| - 1];
    EndIsLargest(most);
    if EndOf(most) > 0 {
      var j :| 0 <= j < |most| && Reaches(most[j]);
      assert Reaches(segs[j]);
    }
    if j :| 0 <= j <= n && Reaches(segs[j]) {
      assert j < n ==> most[j].load && most[j].vaddr + most[j].memsz <= EndOf(most);
      assert j == n ==> segs[n].load;
    }
  }

  /** Segment s has a byte of the file for address a. */
  predicate Supplies(s: Segment, a: int) {
    s.load && s.vaddr <= a < s.vaddr + s.filesz && a - s.vaddr < |s.bytes|
  }

  /** The program finds at a the byte of the last segment that has one, and 0 where none has. */
  lemma {:induction false} ByteIsLast(segs: seq<Segment>, a: int, k: int)
    requires 0 <= k <= |segs| && forall j :: k <= j < |segs| ==> !Supplies(segs[j], a)
    requires k > 0 ==> Supplies(segs[k - 1], a)
    ensures SegByte(segs, a) == if k > 0 then segs[k - 1].bytes[a - segs[k - 1].vaddr] else 0
  {
    if k < |segs| {
      assert !Supplies(segs[|segs| - 1], a);
      ByteIsLast(segs[..|segs| - 1], a, k);
    }
  }

  // ----- arguments

  /** n rounded up to a multiple of 16. */
  function Up16(n: int): int { (n + 15) / 16 * 16 }

  /** The bytes that the strings of argv take on the stack, each with its 0 and rounded up. */
  function StringBytes(argv: seq<seq<int>>): int {
    if argv == [] then 0 else Up16(|argv[0]| + 1) + StringBytes(argv[1..])
  }

  lemma {:induction false} StringBytesLast(argv: seq<seq<int>>)
    requires argv != []
    ensures StringBytes(argv) == StringBytes(argv[..|argv| - 1]) + Up16(|argv[|argv| - 1]| + 1)
  {
    if |argv| > 1 {
      StringBytesLast(argv[1..]);
      assert argv[1..][..|argv| - 2] == argv[..|argv| - 1][1..];
    }
  }

  lemma Down16(sp: int, n: int)
    requires sp % 16 == 0
    ensures AlignDown(sp - n) == sp - Up16(n) && (sp - Up16(n)) % 16 == 0
  {
  }

  lemma {:induction false} ArgSpIs(argv: seq<seq<int>>, top: int)
    requires top % 16 == 0
    ensures ArgSp(argv, top) == top - StringBytes(argv) && ArgSp(argv, top) % 16 == 0
  {
    if argv != [] {
      var most := argv[..|argv| - 1];
      ArgSpIs(most, top);
      StringBytesLast(argv);
      Down16(ArgSp(most, top), |argv[|argv| - 1]| + 1);
    }
  }

  /** exec has room for the arguments if and only if there are at most MAXARG of them and the strings, each rounded up
      to 16 bytes, and the vector of pointers with its final 0, rounded up, together take at most a page.  The vector
      starts exactly below them. */
  lemma ArgsFitIff(argv: seq<seq<int>>, n: int)
    ensures var top, need := n * PGSIZE, StringBytes(argv) + Up16(8 * (|argv| + 1));
            && (ArgsFit(argv, top) <==> |argv| <= MAXARG && need <= PGSIZE)
            && VectorSp(argv, top) == top - need
  {
    var top := n * PGSIZE;
    assert top == 16 * (n * 256);
    ArgSpIs(argv, top);
    Down16(ArgSp(argv, top), 8 * (|argv| + 1));
  }
}
