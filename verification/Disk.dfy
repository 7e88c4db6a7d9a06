/**
 The disk bench of disk_bench.cpp: creating the file, reading it sequentially chunk by
 chunk, and how evenly the chunks are read.
 */
module Disk {
  import opened Arith
  import opened Clock
  import opened Rounding

  const CHUNK: nat := 0x40_0000

  // ----- create_file

  /**
   * Bytes in the new file when write returns these results one after the other, and fails
   * once they are used up: writing goes on until size is reached or a write fails.
   */
  function Written(results: seq<int>, size: nat, done: nat): (w: nat)
    ensures done <= w
    decreases |results|
  {
    if done >= size || results == [] || results[0] <= 0 then done
    else Written(results[1..], size, done + results[0])
  }

  method CreateFile(size: nat, results: seq<int>) returns (written: nat)
    ensures written == Written(results, size, 0)
  {
    written := 0;
    var i := 0;
    while written < size
      invariant 0 <= i <= |results|
      invariant Written(results, size, 0) == Written(results[i..], size, written)
      decreases |results| - i
    {
      var n := if i < |results| then results[i] else -1;
      if n <= 0 {
        break;
      }
      written, i := written + n, i + 1;
    }
  }

  predicate Positive(s: seq<int>) {
    forall i :: 0 <= i < |s| ==> s[i] > 0
  }

  /** The first k writes succeed and together make up what is missing. */
  predicate ReachesAt(results: seq<int>, missing: int, k: nat) {
    k <= |results| && Positive(results[..k]) && Sum(results[..k]) == missing
  }

  ghost predicate CanReach(results: seq<int>, missing: int) {
    exists k: nat :: ReachesAt(results, missing, k)
  }

  lemma SumFromHead(results: seq<int>, k: nat)
    requires 0 < k <= |results|
    ensures Sum(results[..k]) == results[0] + Sum(results[1..][..k - 1])
  {
    assert results[..k] == [results[0]] + results[1..][..k - 1];
    SumLaws([results[0]], results[1..][..k - 1], results[0]);
  }

  /**
   * What is in the file: the successful writes up to the first failure, or up to the one
   * that brings it to the size.
   */
  lemma {:induction false} WrittenMeaning(results: seq<int>, size: nat, done: nat) returns (k: nat)
    ensures k <= |results| && Positive(results[..k])
    ensures Written(results, size, done) == done + Sum(results[..k])
    ensures forall j :: 0 <= j < k ==> done + Sum(results[..j]) < size
    ensures Written(results, size, done) >= size || k == |results| || results[k] <= 0
    decreases |results|
  {
    if done >= size || results == [] || results[0] <= 0 {
      k := 0;
    } else {
      var rest := WrittenMeaning(results[1..], size, done + results[0]);
      k := rest + 1;
      SumFromHead(results, k);
      assert results[..k] == [results[0]] + results[1..][..rest];
      forall j | 0 <= j < k
        ensures done + Sum(results[..j]) < size
      {
        if j > 0 {
          SumFromHead(results, j);
        }
      }
    }
  }

  lemma ReachOneMore(results: seq<int>, missing: int, rest: int, k: nat)
    requires results != [] && results[0] > 0 && rest == missing - results[0] && k < |results|
    ensures ReachesAt(results, missing, k + 1) <==> ReachesAt(results[1..], rest, k)
  {
    SumFromHead(results, k + 1);
    assert results[..k + 1] == [results[0]] + results[1..][..k];
    PositiveFromHead(results[0], results[1..][..k]);
  }

  lemma PositiveFromHead(x: int, s: seq<int>)
    ensures Positive([x] + s) <==> x > 0 && Positive(s)
  {
    assert ([x] + s)[0] == x && forall i :: 0 <= i < |s| ==> ([x] + s)[i + 1] == s[i];
  }

  lemma CanReachStep(results: seq<int>, missing: int, rest: int)
    requires results != [] && results[0] > 0 && 0 < missing && rest == missing - results[0]
    ensures CanReach(results, missing) <==> CanReach(results[1..], rest)
  {
    if CanReach(results, missing) {
      var k: nat :| ReachesAt(results, missing, k);
      assert k != 0 by { assert results[..0] == []; }
      ReachOneMore(results, missing, rest, k - 1);
    }
    if CanReach(results[1..], rest) {
      var k: nat :| ReachesAt(results[1..], rest, k);
      ReachOneMore(results, missing, rest, k);
    }
  }

  lemma NothingReached(results: seq<int>, missing: int)
    requires missing != 0 && (missing < 0 || results == [] || results[0] <= 0)
    ensures !CanReach(results, missing)
  {
    forall k: nat
      ensures !ReachesAt(results, missing, k)
    {
      if k <= |results| && Positive(results[..k]) {
        assert k > 0 ==> results[..k][0] == results[0];
        assert Sum(results[..k]) >= 0;
      }
    }
  }

  /**
   * file_has_size will accept the created file exactly when some run of successful writes
   * adds up to the size; a short write that is not made up for overshoots it.
   */
  lemma {:induction false} CreatedExactlyIff(results: seq<int>, size: nat, done: nat, missing: int)
    requires missing == size - done
    ensures Written(results, size, done) == size <==> CanReach(results, missing)
    decreases |results|
  {
    if missing == 0 {
      assert ReachesAt(results, 0, 0);
    } else if missing < 0 || results == [] || results[0] <= 0 {
      NothingReached(results, missing);
    } else {
      CanReachStep(results, missing, missing - results[0]);
      CreatedExactlyIff(results[1..], size, done + results[0], missing - results[0]);
    }
  }

  /** Writes of at most a chunk never run past the size by a whole chunk. */
  lemma {:induction false} OvershootBelowChunk(results: seq<int>, size: nat, done: nat)
    requires done < size + CHUNK && forall i :: 0 <= i < |results| ==> results[i] <= CHUNK
    ensures Written(results, size, done) < size + CHUNK
    decreases |results|
  {
    if done < size && results != [] && results[0] > 0 {
      OvershootBelowChunk(results[1..], size, done + results[0]);
    }
  }

  /** Writes that succeed reach the size once there are as many as bytes are missing. */
  lemma {:induction false} SuccessfulWritesReach(results: seq<int>, size: nat, done: nat)
    requires Positive(results) && |results| >= size - done
    ensures Written(results, size, done) >= size
    decreases |results|
  {
    if done < size {
      SuccessfulWritesReach(results[1..], size, done + results[0]);
    }
  }

  /** With positive writes of at most a chunk the file ends in [size, size + CHUNK). */
  lemma ShortWritesEndNearSize(results: seq<int>, size: nat)
    requires |results| >= size && forall i :: 0 <= i < |results| ==> 0 < results[i] <= 0x40_0000
    ensures size <= Written(results, size, 0) < size + 0x40_0000
  {
    SuccessfulWritesReach(results, size, 0);
    OvershootBelowChunk(results, size, 0);
  }

  /** One short write followed by a full one makes a file of one chunk a byte too long. */
  lemma ShortWriteOvershoots()
    ensures Written([1, CHUNK], CHUNK, 0) == 0x40_0001
    ensures !CanReach([1, CHUNK], CHUNK)
  {
    assert [1, CHUNK][1..] == [CHUNK];
    assert Written([CHUNK], CHUNK, 1) == CHUNK + 1;
    CreatedExactlyIff([1, CHUNK], CHUNK, 0, CHUNK);
  }

  /** With full writes a size that is a whole number of chunks is met exactly. */
  lemma {:induction false} FullWritesReachSize(results: seq<int>, chunks: nat, done: nat)
    requires done <= chunks && |results| >= chunks - done
    requires forall i :: 0 <= i < |results| ==> results[i] == CHUNK
    ensures Written(results, chunks * CHUNK, done * CHUNK) == chunks * CHUNK
    decreases chunks - done
  {
    if done < chunks {
      FullWritesReachSize(results[1..], chunks, done + 1);
    }
  }

  lemma {:induction false} FullWritesAreChunks(results: seq<int>, size: nat, done: nat)
    requires done % CHUNK == 0 && forall i :: 0 <= i < |results| ==> results[i] == CHUNK
    ensures Written(results, size, done) % CHUNK == 0
    decreases |results|
  {
    if done < size && results != [] {
      FullWritesAreChunks(results[1..], size, done + CHUNK);
    }
  }

  /** With enough full writes the size is met exactly if and only if it is a whole number of chunks. */
  lemma FullWritesExactIff(results: seq<int>, size: nat)
    requires |results| * CHUNK >= size && forall i :: 0 <= i < |results| ==> results[i] == CHUNK
    ensures Written(results, size, 0) == size <==> size % 0x40_0000 == 0
  {
    FullWritesAreChunks(results, size, 0);
    if size % CHUNK == 0 {
      FullWritesReachSize(results, size / CHUNK, 0);
    }
  }

  /** run_disk_bench asks for the rounded size, so full writes create what file_has_size wants. */
  lemma RoundedSizeIsCreated(fileSize: nat, results: seq<int>)
    requires fileSize < UINT64
    requires |results| >= RoundUp(fileSize, CHUNK) / CHUNK && forall i :: 0 <= i < |results| ==> results[i] == CHUNK
    ensures Written(results, RoundUp(fileSize, CHUNK), 0) == RoundUp(fileSize, CHUNK)
  {
    RoundUpIff(fileSize, CHUNK);
    FullWritesReachSize(results, RoundUp(fileSize, CHUNK) / CHUNK, 0);
  }

  // ----- measure_sequential

  /** Where the next read goes: back to the start when a whole chunk no longer fits. */
  function Seek(size: nat, offset: nat): nat {
    if offset + CHUNK > size then 0 else offset
  }

  /** Reads of a run: all but the last returned data; the last may have failed. */
  predicate ReadRun(lengths: seq<int>) {
    lengths != [] && Positive(lengths[..|lengths| - 1])
  }

  /** The offset at which the k-th read is made. */
  function ReadAt(lengths: seq<int>, size: nat, k: nat): nat
    requires ReadRun(lengths) && k < |lengths|
  {
    if k == 0 then 0 else Seek(size, ReadAt(lengths, size, k - 1) + lengths[..|lengths| - 1][k - 1])
  }

  /** The reads that returned data: all of them, or all but the last. */
  function Delivered(lengths: seq<int>): seq<int>
    requires ReadRun(lengths)
  {
    if lengths[|lengths| - 1] > 0 then lengths else lengths[..|lengths| - 1]
  }

  /**
   * The clock readings that go with the reads: a stop test behind each that returned data.
   * Either the last test finds the time up, or all tests go on and the last read fails.
   */
  ghost predicate TimedReads(lengths: seq<int>, timer: Timer) {
    && ReadRun(lengths)
    && (lengths[|lengths| - 1] > 0 ==> |timer.tests| == |lengths| && timer.Valid())
    && (lengths[|lengths| - 1] <= 0 ==>
          && |timer.tests| == |lengths| - 1 && timer.start <= timer.end
          && forall k :: 0 <= k < |timer.tests| ==> timer.start <= timer.tests[k] < timer.start + timer.duration)
  }

  lemma SumNext(lengths: seq<int>, i: nat)
    requires i < |lengths| && lengths[i] > 0 && Sum(lengths[..i]) >= 0
    ensures (Sum(lengths[..i]) % UINT64 + lengths[i]) % UINT64 == Sum(lengths[..i + 1]) % UINT64
  {
    assert lengths[..i + 1][..i] == lengths[..i];
    ModAdd(Sum(lengths[..i]), lengths[i], UINT64);
  }

  /** The bytes delivered are those of the reads that succeeded: no length in the sum is below 1. */
  lemma DeliveredPositive(lengths: seq<int>)
    requires ReadRun(lengths)
    ensures Positive(Delivered(lengths))
    ensures Delivered(lengths) == lengths || Delivered(lengths) + [lengths[|lengths| - 1]] == lengths
  {
    var last := |lengths| - 1;
    assert lengths == lengths[..last] + [lengths[last]];
  }

  /** A read starts where the one before it ended, or back at 0. */
  lemma NextRead(lengths: seq<int>, size: nat, k: nat)
    requires ReadRun(lengths) && 0 < k < |lengths|
    ensures lengths[k - 1] > 0
    ensures var next := ReadAt(lengths, size, k - 1) + lengths[k - 1];
      ReadAt(lengths, size, k) == if next + 0x40_0000 > size then 0 else next
  {
    assert lengths[..|lengths| - 1][k - 1] == lengths[k - 1];
  }

  /** With at least one chunk in the file no read asks for bytes past its end. */
  lemma ReadsStayInside(lengths: seq<int>, size: nat)
    requires ReadRun(lengths)
    ensures size >= CHUNK ==> forall k :: 0 <= k < |lengths| ==> ReadAt(lengths, size, k) + CHUNK <= size
  {
  }

  /** The reads made so far were the first of the run, each at its offset. */
  predicate ReadsMade(offsets: seq<nat>, lengths: seq<int>, size: nat)
    requires ReadRun(lengths)
  {
    |offsets| <= |lengths| && forall k :: 0 <= k < |offsets| ==> offsets[k] == ReadAt(lengths, size, k)
  }

  lemma ReadMade(offsets: seq<nat>, lengths: seq<int>, size: nat, offset: nat)
    requires ReadRun(lengths) && ReadsMade(offsets, lengths, size)
    requires |offsets| < |lengths| && offset == ReadAt(lengths, size, |offsets|)
    ensures ReadsMade(offsets + [offset], lengths, size)
  {
  }

  /** A read that failed, or found the time up, was the last. */
  lemma LoopEnds(lengths: seq<int>, i: nat)
    requires ReadRun(lengths) && 0 < i <= |lengths| && (lengths[i - 1] <= 0 || i == |lengths|)
    ensures lengths[..i] == lengths
  {
    assert forall k :: 0 <= k < |lengths| - 1 ==> lengths[..|lengths| - 1][k] == lengths[k];
  }

  /** The timed loop; offsets lists the preads in order. */
  method ReadUntilTimeUp(size: nat, lengths: seq<int>, timer: Timer) returns (total: nat, offsets: seq<nat>)
    requires TimedReads(lengths, timer)
    ensures total == Sum(Delivered(lengths)) % UINT64
    ensures |offsets| == |lengths| && ReadsMade(offsets, lengths, size)
  {
    var offset: nat, i := 0, 0;
    total, offsets := 0, [];
    while true
      invariant 0 <= i < |lengths| && Sum(lengths[..i]) >= 0 && total == Sum(lengths[..i]) % UINT64 && |offsets| == i
      invariant Seek(size, offset) == ReadAt(lengths, size, i)
      invariant ReadsMade(offsets, lengths, size)
      decreases |lengths| - i
    {
      if offset + CHUNK > size {
        offset := 0;
      }
      var n := lengths[i];
      ReadMade(offsets, lengths, size, offset);
      offsets := offsets + [offset];
      i := i + 1;
      if n <= 0 {
        break;
      }
      SumNext(lengths, i - 1);
      total, offset := (total + n) % UINT64, offset + n;
      if !timer.Continue(i - 1) {
        break;
      }
      NextRead(lengths, size, i);
    }
    LoopEnds(lengths, i);
  }

  /** The bench: the loop, and the bytes delivered over the time from before it to after it. */
  method MeasureSequential(size: nat, lengths: seq<int>, timer: Timer)
    returns (gbs: real, total: nat, offsets: seq<nat>)
    requires TimedReads(lengths, timer)
    ensures total == Sum(Delivered(lengths)) % UINT64
    ensures gbs == if timer.end == timer.start then 0.0 else total as real / (timer.end - timer.start) as real
    ensures |offsets| == |lengths| && ReadsMade(offsets, lengths, size)
    ensures size >= 0x40_0000 ==> forall k :: 0 <= k < |offsets| ==> offsets[k] + 0x40_0000 <= size
  {
    total, offsets := ReadUntilTimeUp(size, lengths, timer);
    ReadsStayInside(lengths, size);
    gbs := Rate(total, timer.end - timer.start);
    RateIsQuotient(total, timer.end - timer.start);
  }

  /** Full reads of a file of m chunks take the chunks in turn, over and over. */
  lemma {:induction false} FullReadsCycle(lengths: seq<int>, m: nat, k: nat)
    requires ReadRun(lengths) && k < |lengths| && m >= 1
    requires forall i :: 0 <= i < |lengths| - 1 ==> lengths[i] == CHUNK
    ensures ReadAt(lengths, m * CHUNK, k) == (k % m) * CHUNK
  {
    if k == 0 {
      ModSmall(0, m);
    } else {
      FullReadsCycle(lengths, m, k - 1);
      NextResidue(k - 1, m);
      var r := (k - 1) % m;
      assert (r + 1) * CHUNK + CHUNK > m * CHUNK <==> r + 1 >= m;
    }
  }

  lemma NextResidue(k: nat, m: nat)
    requires m >= 1
    ensures (k + 1) % m == if k % m + 1 == m then 0 else k % m + 1
  {
    ModAdd(k, 1, m);
    if k % m + 1 == m {
      QuotientUnique(m, m, 1, 0);
    } else {
      ModSmall(k % m + 1, m);
    }
  }

  /** How many of the first n reads are of chunk c. */
  function Visits(m: nat, c: nat, n: nat): nat
    requires m >= 1
  {
    if n == 0 then 0 else Visits(m, c, n - 1) + if (n - 1) % m == c then 1 else 0
  }

  lemma {:induction false} VisitCount(m: nat, c: nat, n: nat)
    requires c < m
    ensures Visits(m, c, n) == n / m + if c < n % m then 1 else 0
  {
    if n == 0 {
      ModSmall(0, m);
    } else {
      VisitCount(m, c, n - 1);
      NextResidue(n - 1, m);
      NextQuotient(n - 1, m);
    }
  }

  lemma NextQuotient(k: nat, m: nat)
    requires m >= 1
    ensures (k + 1) / m == k / m + if k % m + 1 == m then 1 else 0
  {
    if k % m + 1 == m {
      QuotientUnique(k + 1, m, k / m + 1, 0);
    } else {
      QuotientUnique(k + 1, m, k / m, k % m + 1);
    }
  }

  /** How many of the first n reads of a run start at chunk c. */
  function ReadsOfChunk(lengths: seq<int>, size: nat, c: nat, n: nat): nat
    requires ReadRun(lengths) && n <= |lengths|
  {
    if n == 0 then 0 else
      ReadsOfChunk(lengths, size, c, n - 1) + if ReadAt(lengths, size, n - 1) == c * CHUNK then 1 else 0
  }

  lemma {:induction false} ReadsAreVisits(lengths: seq<int>, m: nat, c: nat, n: nat)
    requires ReadRun(lengths) && n <= |lengths| && m >= 1
    requires forall i :: 0 <= i < |lengths| - 1 ==> lengths[i] == CHUNK
    ensures ReadsOfChunk(lengths, m * CHUNK, c, n) == Visits(m, c, n)
  {
    if n != 0 {
      ReadsAreVisits(lengths, m, c, n - 1);
      FullReadsCycle(lengths, m, n - 1);
    }
  }

  /** At any point of a run of full reads, no chunk has been read more than once more than another. */
  lemma ChunksReadEvenly(lengths: seq<int>, m: nat, c: nat, d: nat, n: nat)
    requires ReadRun(lengths) && n <= |lengths| && c < m && d < m
    requires forall i :: 0 <= i < |lengths| - 1 ==> lengths[i] == CHUNK
    ensures ReadsOfChunk(lengths, m * CHUNK, c, n) <= ReadsOfChunk(lengths, m * CHUNK, d, n) + 1
  {
    ReadsAreVisits(lengths, m, c, n);
    ReadsAreVisits(lengths, m, d, n);
    VisitCount(m, c, n);
    VisitCount(m, d, n);
  }
}
