/** The shared record `shmbuf` of a named reader-writer lock and the protocol
    on it, as pure transitions. Every transition here is one critical section:
    the named mutex is held for its whole read-modify-write, so each is atomic. */
module Protocol {

  /** 2^64: `size_t` arithmetic on a 64-bit host wraps modulo this. */
  const WORD: int := 0x1_0000_0000_0000_0000

  /** `size_t`, an unsigned native word. */
  type SizeT = x: int | 0 <= x < WORD

  /** `sizeof(struct shmbuf)`: two 8-byte counters, no padding. */
  const ShmbufSize: nat := 16

  /** `x++` on a `size_t`: addition modulo 2^64. */
  function Inc(x: SizeT): (r: SizeT) {
    if x == WORD - 1 then 0 else x + 1
  }

  /** `x + y` on `size_t` operands: addition modulo 2^64. */
  function Add(x: SizeT, y: SizeT): (r: SizeT) {
    if x + y < WORD then x + y else x + y - WORD
  }

  /** The two counters of the shared record, in declaration order. */
  datatype Counters = Counters(readers: SizeT, writers: SizeT)

  /** The record as a fresh segment is initialised: no reader, no writer. */
  const Idle := Counters(0, 0)

  /** The lock invariant: at most one writer, and never a writer beside a reader. */
  predicate Valid(c: Counters) {
    c.writers <= 1 && (c.writers == 1 ==> c.readers == 0)
  }

  /** One pass of an acquisition loop under the mutex: whether it got the lock,
      and the record afterwards. */
  datatype Attempt = Attempt(ok: bool, post: Counters)

  /** A release: its return code and the record afterwards. */
  datatype Reply = Reply(rc: int, post: Counters)

  /** One pass of `RLock`: it gets the lock exactly when no writer is present,
      and then adds one reader (modulo 2^64); a failed pass changes nothing. */
  function ReadAttempt(c: Counters): (a: Attempt)
    ensures a.ok <==> c.writers == 0
    ensures a.ok ==> a.post.writers == c.writers && a.post.readers == Inc(c.readers)
    ensures !a.ok ==> a.post == c
    ensures Valid(c) ==> Valid(a.post)
  {
    if c.writers == 0 then Attempt(true, c.(readers := Inc(c.readers)))
    else Attempt(false, c)
  }

  /** One pass of `WLock`: it gets the lock when the wrapping sum of the
      counters is 0, which under the invariant means the record is idle. */
  function WriteAttempt(c: Counters): (a: Attempt)
    ensures a.ok <==> Add(c.readers, c.writers) == 0
    ensures a.ok ==> a.post.readers == c.readers && a.post.writers == Inc(c.writers)
    ensures !a.ok ==> a.post == c
    ensures Valid(c) ==> (a.ok <==> c == Idle)
    ensures Valid(c) && a.ok ==> a.post == Counters(0, 1)
    ensures Valid(c) ==> Valid(a.post)
  {
    if Add(c.readers, c.writers) == 0 then Attempt(true, c.(writers := Inc(c.writers)))
    else Attempt(false, c)
  }

  /** `RUnlock`: refuses with -1, changing nothing, while a writer is present
      or no reader is; otherwise one reader fewer. */
  function ReadRelease(c: Counters): (r: Reply)
    ensures r.rc == -1 <==> c.writers != 0 || c.readers == 0
    ensures r.rc == -1 ==> r.post == c
    ensures r.rc != -1 ==> r.rc == 0 && r.post.readers + 1 == c.readers && r.post.writers == c.writers
    ensures Valid(c) ==> Valid(r.post)
  {
    if c.writers != 0 || c.readers <= 0 then Reply(-1, c)
    else Reply(0, c.(readers := c.readers - 1))
  }

  /** `WUnlock`: refuses with -1, changing nothing, unless exactly one writer
      and no reader are present; otherwise the record becomes idle. */
  function WriteRelease(c: Counters): (r: Reply)
    ensures r.rc == -1 <==> c.readers != 0 || c.writers != 1
    ensures r.rc == -1 ==> r.post == c
    ensures r.rc != -1 ==> r.rc == 0 && r.post == Idle
    ensures Valid(c) ==> Valid(r.post)
  {
    if c.readers != 0 || c.writers != 1 then Reply(-1, c)
    else Reply(0, c.(writers := c.writers - 1))
  }

  /** The record a process finds after opening a segment of `size` bytes whose
      counters read `c`: a segment of any other size is resized and zeroed. */
  function Initialised(size: nat, c: Counters): (r: Counters)
    ensures size != ShmbufSize ==> r == Idle
    ensures size == ShmbufSize ==> r == c
    ensures Valid(c) ==> Valid(r)
  {
    if size != ShmbufSize then Idle else c
  }

  datatype Kind = Reader | Writer

  function TryLock(k: Kind, c: Counters): (a: Attempt) {
    match k
    case Reader => ReadAttempt(c)
    case Writer => WriteAttempt(c)
  }

  function Unlock(k: Kind, c: Counters): (r: Reply) {
    match k
    case Reader => ReadRelease(c)
    case Writer => WriteRelease(c)
  }

  /** One critical section run by some process: a single pass of an acquisition
      loop, a release, or `Stat`. Any process may issue any of them. */
  datatype Request = Try(kind: Kind) | Release(kind: Kind) | Peek

  /** The record after one critical section; each keeps the invariant. */
  function Step(c: Counters, r: Request): (d: Counters)
    ensures Valid(c) ==> Valid(d)
    ensures r == Peek ==> d == c
  {
    match r
    case Try(k) => TryLock(k, c).post
    case Release(k) => Unlock(k, c).post
    case Peek => c
  }

  /** The record after the critical sections `rs`, in order: any interleaving
      of critical sections by any processes keeps the invariant. */
  function RunAll(c: Counters, rs: seq<Request>): (d: Counters)
    ensures Valid(c) ==> Valid(d)
    decreases |rs|
  {
    if rs == [] then c else RunAll(Step(c, rs[0]), rs[1..])
  }

  /** How a polling acquisition ends: with the lock on its `tries`-th retry
      (0 = the first pass), or still waiting when the schedule runs out. */
  datatype Wait = Acquired(tries: nat) | StillWaiting

  datatype Poll = Poll(wait: Wait, post: Counters)

  /** `p`, seen from `n` passes earlier. */
  function Delay(p: Poll, n: nat): (q: Poll)
    ensures q.post == p.post && q.wait.Acquired? == p.wait.Acquired?
  {
    match p.wait
    case Acquired(t) => Poll(Acquired(t + n), p.post)
    case StillWaiting => p
  }

  /** The `RLock`/`WLock` loop run from record `c`, where `gaps[j]` are the
      critical sections other processes complete while this one sleeps after
      its `j`-th failed pass. It gets the lock within the passes the schedule
      allows, and keeps the invariant. */
  function PollLock(k: Kind, c: Counters, gaps: seq<seq<Request>>): (p: Poll)
    ensures p.wait.Acquired? ==> p.wait.tries <= |gaps|
    ensures Valid(c) ==> Valid(p.post)
    decreases |gaps|
  {
    var a := TryLock(k, c);
    if a.ok then Poll(Acquired(0), a.post)
    else if gaps == [] then Poll(StillWaiting, c)
    else Delay(PollLock(k, RunAll(c, gaps[0]), gaps[1..]), 1)
  }

  /** The record seen at the `j`-th pass of that loop, when every earlier pass
      failed (a failed pass changes nothing); it is valid when the first is. */
  function Observed(c: Counters, gaps: seq<seq<Request>>, j: nat): (d: Counters)
    requires j <= |gaps|
    ensures Valid(c) ==> Valid(d)
    decreases j
  {
    if j == 0 then c else Observed(RunAll(c, gaps[0]), gaps[1..], j - 1)
  }

  /** A sequence of `n` copies of `r`. */
  function Repeat(r: Request, n: nat): (rs: seq<Request>)
    ensures |rs| == n && forall i :: 0 <= i < n ==> rs[i] == r
  {
    if n == 0 then [] else [r] + Repeat(r, n - 1)
  }

  // ---------------------------------------------------------------------
  // Single critical sections

  /** `Inc` is addition modulo 2^64. */
  lemma IncWraps(x: SizeT)
    ensures Inc(x) == (x + 1) % WORD
  {
  }

  /** `Add` is addition modulo 2^64. */
  lemma AddWraps(x: SizeT, y: SizeT)
    ensures Add(x, y) == (x + y) % WORD
  {
  }

  /** A release either succeeds with 0 or refuses with -1 and changes nothing. */
  lemma UnlockRefusesWithoutChange(k: Kind, c: Counters)
    ensures Unlock(k, c).rc == 0 || Unlock(k, c).rc == -1
    ensures Unlock(k, c).rc == -1 <==> Unlock(k, c).post == c
  {
  }

  /** Outside the invariant the wrapping sum lets a writer in beside a maximal
      reader count: the guard is sound only because of `Valid`. */
  lemma WriteGuardWrapsOutsideInvariant()
    ensures !Valid(Counters(WORD - 1, 1))
    ensures WriteAttempt(Counters(WORD - 1, 1)).ok
    ensures WriteAttempt(Counters(WORD - 1, 1)).post == Counters(WORD - 1, 2)
  {
  }

  /** RLock then RUnlock restores the record, as long as the reader count does not wrap. */
  lemma ReadRoundTrip(c: Counters)
    requires c.writers == 0 && c.readers < WORD - 1
    ensures ReadAttempt(c).ok
    ensures ReadRelease(ReadAttempt(c).post) == Reply(0, c)
  {
  }

  /** With 2^64 - 1 readers a further reader wraps the count to 0, and the
      following RUnlock is refused. */
  lemma ReadRoundTripWraps()
    ensures ReadAttempt(Counters(WORD - 1, 0)) == Attempt(true, Idle)
    ensures ReadRelease(Idle) == Reply(-1, Idle)
  {
  }

  /** WLock then WUnlock restores the (necessarily idle) record. */
  lemma WriteRoundTrip(c: Counters)
    requires Valid(c) && WriteAttempt(c).ok
    ensures WriteRelease(WriteAttempt(c).post) == Reply(0, c) && c == Idle
  {
  }

  /** Opening an already initialised segment keeps its counters, so of two
      processes racing to open a fresh segment only the first zeroes it. */
  lemma InitialisedOnce(size: nat, c: Counters)
    ensures Initialised(ShmbufSize, Initialised(size, c)) == Initialised(size, c)
  {
  }

  // ---------------------------------------------------------------------
  // Sequences of critical sections

  /** Every record reachable from a freshly initialised segment satisfies the invariant. */
  lemma ReachableValid(size: nat, c: Counters, rs: seq<Request>)
    requires size != ShmbufSize
    ensures Valid(RunAll(Initialised(size, c), rs))
  {
  }

  /** Starting with `m` readers, `n` more RLock passes leave `m + n` readers and no writer. */
  lemma {:induction false} ReadersAccumulate(m: nat, n: nat)
    requires m + n < WORD
    ensures RunAll(Counters(m, 0), Repeat(Try(Reader), n)) == Counters(m + n, 0)
    decreases n
  {
    if n > 0 {
      var rs := Repeat(Try(Reader), n);
      assert rs[0] == Try(Reader);
      assert rs[1..] == Repeat(Try(Reader), n - 1);
      ReadersAccumulate(m + 1, n - 1);
    }
  }

  /** N readers from idle all succeed and leave N readers. */
  lemma ConcurrentReaders(n: nat)
    requires n < WORD
    ensures RunAll(Idle, Repeat(Try(Reader), n)) == Counters(n, 0)
  {
    ReadersAccumulate(0, n);
  }

  /** While a writer holds the lock and nobody releases it, every other
      critical section fails and the record stays as it is. */
  lemma {:induction false} WriterExcludesAll(c: Counters, rs: seq<Request>)
    requires Valid(c) && c.writers == 1
    requires forall i :: 0 <= i < |rs| ==> rs[i] != Release(Writer)
    ensures RunAll(c, rs) == c
    ensures !ReadAttempt(c).ok && !WriteAttempt(c).ok
    decreases |rs|
  {
    if rs != [] {
      assert Step(c, rs[0]) == c;
      WriterExcludesAll(c, rs[1..]);
    }
  }

  /** While at least one reader holds the lock and no reader releases, no
      writer gets in (as long as the reader count cannot wrap). */
  lemma {:induction false} ReadersExcludeWriter(c: Counters, rs: seq<Request>)
    requires Valid(c) && c.readers > 0 && c.readers + |rs| < WORD
    requires forall i :: 0 <= i < |rs| ==> rs[i] != Release(Reader)
    ensures RunAll(c, rs).writers == 0 && RunAll(c, rs).readers >= c.readers
    decreases |rs|
  {
    if rs != [] {
      var d := Step(c, rs[0]);
      assert d.writers == 0 && c.readers <= d.readers <= c.readers + 1;
      ReadersExcludeWriter(d, rs[1..]);
    }
  }

  // ---------------------------------------------------------------------
  // Polling acquisitions

  /** A poll that gets the lock on retry `n` got it on the first pass that saw
      its guard hold: every earlier pass saw it fail, and the record afterwards
      is that pass's result. */
  lemma {:induction false} PollAcquiredFirst(k: Kind, c: Counters, gaps: seq<seq<Request>>)
    requires PollLock(k, c, gaps).wait.Acquired?
    ensures var n := PollLock(k, c, gaps).wait.tries;
      n <= |gaps| &&
      TryLock(k, Observed(c, gaps, n)).ok &&
      PollLock(k, c, gaps).post == TryLock(k, Observed(c, gaps, n)).post &&
      forall j :: 0 <= j < n ==> !TryLock(k, Observed(c, gaps, j)).ok
    decreases |gaps|
  {
    if !TryLock(k, c).ok {
      var c' := RunAll(c, gaps[0]);
      PollAcquiredFirst(k, c', gaps[1..]);
      var n := PollLock(k, c, gaps).wait.tries;
      forall j | 0 <= j < n ensures !TryLock(k, Observed(c, gaps, j)).ok {
        if j > 0 {
          assert Observed(c, gaps, j) == Observed(c', gaps[1..], j - 1);
        }
      }
    }
  }

  /** A poll still waiting when the schedule ends saw its guard fail on every
      pass and leaves the record the other processes produced. */
  lemma {:induction false} PollWaitingSawNoChance(k: Kind, c: Counters, gaps: seq<seq<Request>>)
    requires PollLock(k, c, gaps).wait.StillWaiting?
    ensures PollLock(k, c, gaps).post == Observed(c, gaps, |gaps|)
    ensures forall j :: 0 <= j <= |gaps| ==> !TryLock(k, Observed(c, gaps, j)).ok
    decreases |gaps|
  {
    if gaps != [] {
      var c' := RunAll(c, gaps[0]);
      PollWaitingSawNoChance(k, c', gaps[1..]);
      forall j | 0 <= j <= |gaps| ensures !TryLock(k, Observed(c, gaps, j)).ok {
        if j > 0 {
          assert Observed(c, gaps, j) == Observed(c', gaps[1..], j - 1);
        }
      }
    }
  }

  /** A poll gets the lock exactly when some pass sees its guard hold. */
  lemma PollAcquiredIff(k: Kind, c: Counters, gaps: seq<seq<Request>>)
    ensures PollLock(k, c, gaps).wait.Acquired? <==>
            exists j :: 0 <= j <= |gaps| && TryLock(k, Observed(c, gaps, j)).ok
  {
    if PollLock(k, c, gaps).wait.Acquired? {
      PollAcquiredFirst(k, c, gaps);
      var n := PollLock(k, c, gaps).wait.tries;
      assert TryLock(k, Observed(c, gaps, n)).ok;
    } else {
      PollWaitingSawNoChance(k, c, gaps);
    }
  }

  /** A writer poll that gets the lock from a valid record leaves (0, 1):
      the writer is alone. */
  lemma PollWriterAlone(c: Counters, gaps: seq<seq<Request>>)
    requires Valid(c) && PollLock(Writer, c, gaps).wait.Acquired?
    ensures PollLock(Writer, c, gaps).post == Counters(0, 1)
  {
    PollAcquiredFirst(Writer, c, gaps);
  }

  /** While a writer holds the lock and nobody in the schedule releases it, a
      polling RLock or WLock keeps waiting and the record does not move. */
  lemma {:induction false} WriterBlocksPolls(k: Kind, c: Counters, gaps: seq<seq<Request>>)
    requires Valid(c) && c.writers == 1
    requires forall g, i :: 0 <= g < |gaps| && 0 <= i < |gaps[g]| ==> gaps[g][i] != Release(Writer)
    ensures PollLock(k, c, gaps) == Poll(StillWaiting, c)
    decreases |gaps|
  {
    WriterExcludesAll(c, []);
    if gaps != [] {
      WriterExcludesAll(c, gaps[0]);
      WriterBlocksPolls(k, c, gaps[1..]);
    }
  }
}
