/** The command-line front end: `rwlock <name> <operation>` opens the lock
    named `<name>` and runs exactly one operation on it. */
module Command {
  import opened Protocol
  import opened RWLock

  datatype Option<T> = None | Some(value: T)

  datatype Operation = RLockOp | RUnlockOp | WLockOp | WUnlockOp | StatOp

  /** The name that selects each operation on the command line. */
  function Name(op: Operation): (s: string) {
    match op
    case RLockOp => "rlock"
    case RUnlockOp => "runlock"
    case WLockOp => "wlock"
    case WUnlockOp => "wunlock"
    case StatOp => "stat"
  }

  /** The `strcmp` chain: the operation whose name is `s`, if any. */
  function ParseOperation(s: string): (r: Option<Operation>)
    ensures r.Some? ==> Name(r.value) == s
    ensures r.None? ==> forall op: Operation :: Name(op) != s
  {
    if s == "rlock" then Some(RLockOp)
    else if s == "runlock" then Some(RUnlockOp)
    else if s == "wlock" then Some(WLockOp)
    else if s == "wunlock" then Some(WUnlockOp)
    else if s == "stat" then Some(StatOp)
    else None
  }

  /** Every operation is selected by its own name. */
  lemma ParseName(op: Operation)
    ensures ParseOperation(Name(op)) == Some(op)
  {
  }

  /** What `main` does with its arguments (`argv[0]` is the program name). */
  datatype Plan =
    | BadArity             // usage message, exit 1, the lock is never opened
    | UnknownOperation     // the lock is opened, then usage message, exit -1
    | Invoke(op: Operation) // the lock is opened and `op` runs once

  function Dispatch(argv: seq<string>): (p: Plan)
    ensures p == BadArity <==> |argv| != 3
    ensures p == UnknownOperation <==> |argv| == 3 && forall op: Operation :: Name(op) != argv[2]
    ensures p.Invoke? ==> |argv| == 3 && Name(p.op) == argv[2]
  {
    if |argv| != 3 then BadArity
    else match ParseOperation(argv[2])
      case None => UnknownOperation
      case Some(op) => Invoke(op)
  }

  /** What `main` returns, or `Blocked` for an RLock/WLock still polling
      when the schedule of other processes' steps ends. */
  datatype Exit = Exit(code: int) | Blocked

  /** The exit status the parent process sees for `main`'s return value
      `code`: only its low 8 bits, so a return of -1 is seen as 255. */
  function ShellStatus(code: int): (s: int)
    ensures 0 <= s < 256 && (code - s) % 256 == 0
  {
    code % 256
  }

  /** The statuses `main` can produce, as the shell sees them: 0, 1 and 255. */
  lemma ShellStatuses()
    ensures ShellStatus(0) == 0 && ShellStatus(1) == 1 && ShellStatus(-1) == 255
  {
  }

  datatype Outcome = Outcome(exit: Exit, post: Counters)

  /** One invocation of `op` on record `c`, with `gaps` as for the polling
      locks. A lock returns 0 exactly when its poll gets the lock; a release
      returns -1, changing nothing, exactly under its guard, and otherwise 0
      with the release done; Stat returns 0 and changes nothing; every
      operation keeps the invariant. */
  function Perform(op: Operation, c: Counters, gaps: seq<seq<Request>>): (o: Outcome)
    ensures op == RLockOp || op == WLockOp ==> o.exit == Exit(0) || o.exit == Blocked
    ensures op == RLockOp ==> (o.exit == Exit(0) <==> PollLock(Reader, c, gaps).wait.Acquired?)
    ensures op == WLockOp ==> (o.exit == Exit(0) <==> PollLock(Writer, c, gaps).wait.Acquired?)
    ensures op == RUnlockOp || op == WUnlockOp ==>
      (o.exit == Exit(0) || o.exit == Exit(-1)) && (o.exit == Exit(-1) ==> o.post == c)
    ensures op == RUnlockOp ==>
      (o.exit == Exit(-1) <==> c.writers != 0 || c.readers == 0) &&
      (o.exit == Exit(0) ==> o.post == ReadRelease(c).post)
    ensures op == WUnlockOp ==>
      (o.exit == Exit(-1) <==> c.readers != 0 || c.writers != 1) &&
      (o.exit == Exit(0) ==> o.post == WriteRelease(c).post)
    ensures op == StatOp ==> o == Outcome(Exit(0), c)
    ensures op == RLockOp ==> o.post == PollLock(Reader, c, gaps).post
    ensures op == WLockOp ==> o.post == PollLock(Writer, c, gaps).post
    ensures Valid(c) ==> Valid(o.post)
  {
    match op
    case RLockOp =>
      var p := PollLock(Reader, c, gaps);
      Outcome(if p.wait.Acquired? then Exit(0) else Blocked, p.post)
    case RUnlockOp =>
      var r := ReadRelease(c);
      Outcome(Exit(r.rc), r.post)
    case WLockOp =>
      var p := PollLock(Writer, c, gaps);
      Outcome(if p.wait.Acquired? then Exit(0) else Blocked, p.post)
    case WUnlockOp =>
      var r := WriteRelease(c);
      Outcome(Exit(r.rc), r.post)
    case StatOp =>
      Outcome(Exit(0), c)
  }

  /** A first opener's `runlock` need not start on the record it zeroed: a
      reader that opens and locks in between lets the release succeed. */
  lemma FirstOpenerSeesOthers(size: nat, c: Counters)
    requires size != ShmbufSize
    ensures Perform(RUnlockOp, Initialised(size, c), []) == Outcome(Exit(-1), Idle)
    ensures Perform(RUnlockOp, RunAll(Initialised(size, c), [Try(Reader)]), []) == Outcome(Exit(0), Idle)
  {
  }

  /** `main`: `seg` is the segment the name `argv[1]` resolves to. The
      constructor releases the mutex before the operation takes it again, so
      `before` are the critical sections other processes complete in between;
      `gaps` are those during the sleeps of a polling lock. */
  method Run(argv: seq<string>, seg: Segment, before: seq<Request>, gaps: seq<seq<Request>>)
    returns (exit: Exit)
    modifies seg
    ensures Dispatch(argv) == BadArity ==>
      exit == Exit(1) && seg.size == old(seg.size) && seg.Value() == old(seg.Value())
    ensures Dispatch(argv) != BadArity ==> seg.size == ShmbufSize
    ensures Dispatch(argv) == UnknownOperation ==>
      exit == Exit(-1) && seg.Value() == Initialised(old(seg.size), old(seg.Value()))
    ensures Dispatch(argv).Invoke? ==>
      Outcome(exit, seg.Value()) ==
      Perform(Dispatch(argv).op, RunAll(Initialised(old(seg.size), old(seg.Value())), before), gaps)
  {
    if |argv| != 3 {
      return Exit(1);
    }
    var lock := new NamedRWLock(seg);
    var op := ParseOperation(argv[2]);
    if op.None? {
      return Exit(-1);
    }
    // The mutex is free between opening and the operation; others run meanwhile.
    var next := RunAll(seg.Value(), before);
    seg.readers, seg.writers := next.readers, next.writers;
    match op {
      case Some(RLockOp) =>
        var w := lock.RLock(gaps);
        exit := if w.Acquired? then Exit(0) else Blocked;
      case Some(RUnlockOp) =>
        var rc := lock.RUnlock();
        exit := Exit(rc);
      case Some(WLockOp) =>
        var w := lock.WLock(gaps);
        exit := if w.Acquired? then Exit(0) else Blocked;
      case Some(WUnlockOp) =>
        var rc := lock.WUnlock();
        exit := Exit(rc);
      case Some(StatOp) =>
        var rc, readers, writers := lock.Stat();
        exit := Exit(rc);
    }
  }
}
