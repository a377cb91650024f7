/** The named reader-writer lock as objects: the shared segment that every
    process maps, and one process's `NamedRWLock` handle on it. Several
    handles on one segment stand for several processes using the same name.
    Each method body runs with the named mutex held, except where a comment
    marks the mutex being released. */
module RWLock {
  import opened Protocol

  /** The named shared-memory object: its size as `fstat` reports it, and the
      two `shmbuf` counters mapped over it. */
  class Segment {
    var size: nat
    var readers: SizeT
    var writers: SizeT

    /** A segment as the operating system holds it: a name never opened before
        has size 0; a segment left by earlier processes keeps its bytes. */
    constructor (size: nat, readers: SizeT, writers: SizeT)
      ensures this.size == size && this.readers == readers && this.writers == writers
    {
      this.size, this.readers, this.writers := size, readers, writers;
    }

    function Value(): (c: Counters)
      reads this
    {
      Counters(readers, writers)
    }
  }

  class NamedRWLock {
    const shm: Segment

    /** Opening the lock: under the mutex, a segment whose size is not that of
        the record is resized to fit and zeroed; one of the right size keeps
        its counters. */
    constructor (shm: Segment)
      modifies shm
      ensures this.shm == shm
      ensures shm.size == ShmbufSize
      ensures shm.Value() == Initialised(old(shm.size), old(shm.Value()))
      ensures old(shm.size) != ShmbufSize ==> shm.Value() == Idle
      ensures old(shm.size) == ShmbufSize ==> shm.Value() == old(shm.Value())
    {
      this.shm := shm;
      new;
      var needInit := shm.size != ShmbufSize;
      if needInit {
        shm.size := ShmbufSize;
      }
      if needInit {
        shm.readers, shm.writers := 0, 0;
      }
    }

    /** Acquire for reading: retry until a pass sees no writer, then add a
        reader. `gaps[j]` are the critical sections other processes complete
        while this one sleeps after its `j`-th failed pass; when they run out
        the call is reported as still waiting. */
    method RLock(gaps: seq<seq<Request>>) returns (wait: Wait)
      modifies shm
      ensures Poll(wait, shm.Value()) == PollLock(Reader, old(shm.Value()), gaps)
      ensures wait.Acquired? ==> shm.writers == 0
      ensures shm.size == old(shm.size)
    {
      var i := 0;
      while true
        invariant 0 <= i <= |gaps|
        invariant Delay(PollLock(Reader, shm.Value(), gaps[i..]), i) == PollLock(Reader, old(shm.Value()), gaps)
        invariant shm.size == old(shm.size)
        decreases |gaps| - i
      {
        if shm.writers == 0 {
          break;
        }
        // The mutex is released and the process sleeps; others run meanwhile.
        if i == |gaps| {
          return StillWaiting;
        }
        assert gaps[i..][1..] == gaps[i + 1..];
        var next := RunAll(shm.Value(), gaps[i]);
        shm.readers, shm.writers := next.readers, next.writers;
        i := i + 1;
      }
      shm.readers := Inc(shm.readers);
      wait := Acquired(i);
    }

    /** Release a read lock: refused with -1, changing nothing, while a writer
        is present or no reader is; otherwise one reader fewer. */
    method RUnlock() returns (rc: int)
      modifies shm
      ensures Reply(rc, shm.Value()) == ReadRelease(old(shm.Value()))
      ensures rc == -1 <==> old(shm.writers) != 0 || old(shm.readers) == 0
      ensures rc == -1 ==> shm.Value() == old(shm.Value())
      ensures rc == 0 ==> shm.readers == old(shm.readers) - 1 && shm.writers == old(shm.writers)
      ensures shm.size == old(shm.size)
    {
      if shm.writers != 0 || shm.readers <= 0 {
        return -1;
      }
      shm.readers := shm.readers - 1;
      return 0;
    }

    /** Acquire for writing: retry until a pass sees the counters sum to 0,
        then add the writer. `gaps` as for `RLock`. */
    method WLock(gaps: seq<seq<Request>>) returns (wait: Wait)
      modifies shm
      ensures Poll(wait, shm.Value()) == PollLock(Writer, old(shm.Value()), gaps)
      ensures Valid(old(shm.Value())) && wait.Acquired? ==> shm.Value() == Counters(0, 1)
      ensures shm.size == old(shm.size)
    {
      var i := 0;
      while true
        invariant 0 <= i <= |gaps|
        invariant Delay(PollLock(Writer, shm.Value(), gaps[i..]), i) == PollLock(Writer, old(shm.Value()), gaps)
        invariant shm.size == old(shm.size)
        decreases |gaps| - i
      {
        if Add(shm.readers, shm.writers) == 0 {
          break;
        }
        // The mutex is released and the process sleeps; others run meanwhile.
        if i == |gaps| {
          return StillWaiting;
        }
        assert gaps[i..][1..] == gaps[i + 1..];
        var next := RunAll(shm.Value(), gaps[i]);
        shm.readers, shm.writers := next.readers, next.writers;
        i := i + 1;
      }
      shm.writers := Inc(shm.writers);
      wait := Acquired(i);
      if Valid(old(shm.Value())) {
        PollWriterAlone(old(shm.Value()), gaps);
      }
    }

    /** Release the write lock: refused with -1, changing nothing, unless
        exactly one writer and no reader are present; otherwise no writer. */
    method WUnlock() returns (rc: int)
      modifies shm
      ensures Reply(rc, shm.Value()) == WriteRelease(old(shm.Value()))
      ensures rc == -1 <==> old(shm.readers) != 0 || old(shm.writers) != 1
      ensures rc == -1 ==> shm.Value() == old(shm.Value())
      ensures rc == 0 ==> shm.Value() == Idle
      ensures shm.size == old(shm.size)
    {
      if shm.readers != 0 || shm.writers != 1 {
        return -1;
      }
      shm.writers := shm.writers - 1;
      return 0;
    }

    /** Report both counters; nothing changes. */
    method Stat() returns (rc: int, readers: SizeT, writers: SizeT)
      ensures rc == 0 && readers == shm.readers && writers == shm.writers
    {
      readers, writers := shm.readers, shm.writers;
      return 0, readers, writers;
    }
  }

  /** Two processes open a lock on a name never used before (its segment may
      hold stale bytes of any size) and run the write-then-read sequence, then
      release one read lock and the write lock once too often. It returns how
      the two polling locks ended, the return codes of stat, runlock, runlock
      and wunlock in that order, the counters stat reported and the final
      record. */
  method LockTestScenario(staleSize: nat, staleReaders: SizeT, staleWriters: SizeT)
    returns (waits: seq<Wait>, codes: seq<int>, seen: Counters, final: Counters)
    requires staleSize != ShmbufSize
    ensures waits == [Acquired(0), Acquired(2)]
    ensures codes == [0, 0, -1, -1]
    ensures seen == Counters(1, 0) && final == Idle
  {
    var seg := new Segment(staleSize, staleReaders, staleWriters);
    var a := new NamedRWLock(seg);
    var b := new NamedRWLock(seg);
    assert seg.Value() == Idle;

    var w := a.WLock([]);
    assert w == Acquired(0) && seg.Value() == Counters(0, 1);

    // b's RLock polls while a holds the lock; a's WUnlock lands in the second sleep.
    var r := b.RLock([[Peek], [Release(Writer)]]);
    assert r == Acquired(2) && seg.Value() == Counters(1, 0);
    waits := [w, r];

    var rc, readers, writers := a.Stat();
    seen := Counters(readers, writers);

    var rc1 := b.RUnlock();
    assert rc1 == 0 && seg.Value() == Idle;
    var rc2 := b.RUnlock();
    assert rc2 == -1 && seg.Value() == Idle;
    var rc3 := a.WUnlock();
    assert rc3 == -1;
    codes := [rc, rc1, rc2, rc3];
    final := seg.Value();
  }
}
