/** What holds along every run of the reader/writer lock, and where the 16-bit counts end it. */
module RwLockRuns {
  import opened Counting
  import opened FutexMutex
  import opened RwLock

  predicate WriterHolds(pc: Pc) { pc == WRel || pc == In(Writer) || pc == Rel(Writer) }

  /** A writer excludes everybody, and rwUnlock will read the type of the side that calls it. */
  ghost predicate Safe(s: State) {
    && (forall t, u | 0 <= t < |s.pc| && 0 <= u < |s.pc| && t != u ::
          WriterHolds(s.pc[t]) ==> !WriterHolds(s.pc[u]) && !ReaderInside(s.pc[u]))
    && (forall t | 0 <= t < |s.pc| ::
          && (s.pc[t] == In(Writer) ==> s.typ == 1)
          && (s.pc[t] == In(Reader) ==> s.typ == 0))
  }

  /** At most one thread is about to release `wrt`, and the bit is then set. */
  ghost predicate ReleasedOnce(s: State) {
    && (forall t | 0 <= t < |s.pc| :: s.pc[t].Rel? ==> s.wrt.word.xcl)
    && (forall t, u | 0 <= t < u < |s.pc| :: !(s.pc[t].Rel? && s.pc[u].Rel?))
  }

  lemma {:induction false} RunKeepsLockInv(r: seq<State>, i: nat)
    requires Run(r) && i < |r|
    ensures LockInv(r[i]) && |r[i].pc| == |r[0].pc|
  {
    hide LockInv, Init, StepBy;
    if i == 0 {
      InitHolds(r[0]);
    } else {
      RunKeepsLockInv(r, i - 1);
      assert Step(r[i - 1], r[i - 1 + 1]);
      StepKeepsLockInv(r[i - 1], r[i]);
      StepKeepsThreads(r[i - 1], r[i]);
    }
  }

  lemma {:induction false} StepKeepsThreads(s: State, s': State)
    requires Shape(s) && Shape(s') && Step(s, s')
    ensures |s'.pc| == |s.pc|
  {
    var t: nat :| StepBy(s, s', t);
    if Instr(s, s', t) {
      InstrIsLocal(s, s', t);
    }
  }

  /** Exclusion survives any interleaving of any number of threads, even when `readers` wraps. */
  lemma {:induction false} Exclusion(r: seq<State>, i: nat)
    requires Run(r) && i < |r|
    ensures Safe(r[i]) && ReleasedOnce(r[i])
  {
    RunKeepsLockInv(r, i);
    var s := r[i];
    forall t, u | 0 <= t < |s.pc| && 0 <= u < |s.pc| && t != u && WriterHolds(s.pc[t])
      ensures !WriterHolds(s.pc[u]) && !ReaderInside(s.pc[u])
    {
      assert OwnsWrt(s, t);
      assert WriterHolds(s.pc[u]) ==> OwnsWrt(s, u);
    }
    forall t | 0 <= t < |s.pc| && s.pc[t].Rel?
      ensures s.wrt.word.xcl && forall u | 0 <= u < |s.pc| && u != t :: !s.pc[u].Rel?
    {
      ReleaserAlone(s, t);
      forall u | 0 <= u < |s.pc| && u != t ensures !s.pc[u].Rel? {
        if s.pc[u].Rel? {
          ReleaserAlone(s, u);
          assert OwnsWrt(s, u) || OwnsWrt(s, t) || (Leaving(s.pc[t]) && Leaving(s.pc[u])) by {
            match s.pc[t].role case Writer => case Reader => { match s.pc[u].role case Writer => case Reader => }
          }
          if Leaving(s.pc[t]) && Leaving(s.pc[u]) {
            CountTwo(Leaving, s.pc, t, u, Idle);
          }
        }
      }
    }
  }

  // ---------- a reader group releases after its last reader ----------

  ghost predicate WaitsAlone(s: State) {
    Shape(s) && (Waiting(s) ==> Members(s) == 1)
  }

  lemma {:induction false} StepKeepsWaitsAlone(s: State, s': State)
    requires LockInv(s) && Step(s, s') && WaitsAlone(s) && |s.pc| <= READERS_MOD
    ensures WaitsAlone(s')
  {
    var t: nat :| StepBy(s, s', t);
    if XclMicro(s, s', t) {
      MicroEffect(s.xcl, s'.xcl, t);
      assert forall u | 0 <= u < |s.pc| :: WaitsWrt(s', u) == WaitsWrt(s, u);
    } else if WrtMicro(s, s', t) {
      MicroEffect(s.wrt, s'.wrt, t);
      assert forall u | 0 <= u < |s.pc| :: WaitsWrt(s', u) ==> WaitsWrt(s, u);
    } else {
      InstrKeepsWaitsAlone(s, s', t);
    }
  }

  lemma {:induction false} InstrKeepsWaitsAlone(s: State, s': State, t: nat)
    requires LockInv(s) && t < |s.pc| && Instr(s, s', t) && WaitsAlone(s) && |s.pc| <= READERS_MOD
    ensures WaitsAlone(s')
  {
    InstrCounts(s, s', t);
    if s.pc[t] == RXcl {
      NotWaitingWhileOwner(s, t);
      CountFull(Joined, s.pc);
      assert !Joined(s.pc[t]);
      assert s.readers == Members(s);
      if s.readers > 0 {
        assert !WaitsWrt(s', t);
        assert !Waiting(s') by { OwnershipMoves(s, s', t); }
      }
    } else if s.pc[t].Sub? {
      LeaveIsQuiet(s, s', t);
    } else {
      assert !WaitsWrt(s', t) && !WaitsWrt(s, t);
      assert Waiting(s') == Waiting(s) by { OwnershipMoves(s, s', t); }
    }
  }

  lemma {:induction false} LastReaderOut(s: State, t: nat, u: nat)
    requires LockInv(s) && WaitsAlone(s) && t < |s.pc| && u < |s.pc| && s.pc[t] == Rel(Reader)
    ensures Joined(s.pc[u]) ==> WaitsWrt(s, u)
  {
    ReleaserAlone(s, t);
    if Joined(s.pc[u]) && !WaitsWrt(s, u) {
      CountZero(Joined, s.pc);
      var w :| 0 <= w < |s.pc| && WaitsWrt(s, w);
      CountTwo(Joined, s.pc, u, w, Idle);
    }
  }

  lemma {:induction false} RunKeepsWaitsAlone(r: seq<State>, i: nat)
    requires Run(r) && i < |r| && |r[0].pc| <= READERS_MOD
    ensures WaitsAlone(r[i])
  {
    if i > 0 {
      RunKeepsWaitsAlone(r, i - 1);
      RunKeepsLockInv(r, i - 1);
      assert Step(r[i - 1], r[i - 1 + 1]);
      StepKeepsWaitsAlone(r[i - 1], r[i]);
    }
  }

  /** With at most 0x10000 threads no reader is left inside when its group gives `wrt` back. */
  lemma {:induction false} GroupReleasesLast(r: seq<State>, i: nat, t: nat)
    requires Run(r) && i < |r| && |r[0].pc| <= READERS_MOD && t < |r[i].pc| && r[i].pc[t] == Rel(Reader)
    ensures forall u | 0 <= u < |r[i].pc| :: !ReaderInside(r[i].pc[u]) && r[i].pc[u] != RType
  {
    RunKeepsLockInv(r, i);
    RunKeepsWaitsAlone(r, i);
    forall u | 0 <= u < |r[i].pc| ensures !ReaderInside(r[i].pc[u]) && r[i].pc[u] != RType {
      LastReaderOut(r[i], t, u);
    }
  }

  // ---------- no wakeup is lost ----------

  ghost predicate Wakeful(s: State) {
    Inv(s.xcl) && Inv(s.wrt) && NoLostWakeup(s.xcl) && NoLostWakeup(s.wrt)
  }

  lemma {:induction false} StepKeepsWakeful(s: State, s': State)
    requires Shape(s) && Step(s, s') && Wakeful(s) && |s.pc| <= WAITERS_MOD
    ensures Shape(s') && Wakeful(s')
  {
    var t: nat :| StepBy(s, s', t);
    if XclMicro(s, s', t) {
      MicroKeepsCount(s.xcl, s'.xcl, t);
      MicroKeepsWakeups(s.xcl, s'.xcl, t);
    } else if WrtMicro(s, s', t) {
      MicroKeepsCount(s.wrt, s'.wrt, t);
      MicroKeepsWakeups(s.wrt, s'.wrt, t);
    } else {
      InstrIsLocal(s, s', t);
      InstrOnMutexes(s, s', t);
      if Call(s.xcl, s'.xcl, t) {
        CallKeepsCount(s.xcl, s'.xcl, t);
        CallKeepsWakeups(s.xcl, s'.xcl, t);
      } else if Release(s.xcl, s'.xcl, t) {
        ReleaseKeepsCount(s.xcl, s'.xcl, t);
        ReleaseKeepsWakeups(s.xcl, s'.xcl, t);
      }
      if Call(s.wrt, s'.wrt, t) {
        CallKeepsCount(s.wrt, s'.wrt, t);
        CallKeepsWakeups(s.wrt, s'.wrt, t);
      } else if Release(s.wrt, s'.wrt, t) {
        ReleaseKeepsCount(s.wrt, s'.wrt, t);
        ReleaseKeepsWakeups(s.wrt, s'.wrt, t);
      }
    }
  }

  /** An instruction touches a mutex only by calling it or releasing it. */
  lemma {:induction false} InstrOnMutexes(s: State, s': State, t: nat)
    requires Shape(s) && t < |s.pc| && Instr(s, s', t)
    ensures s'.xcl == s.xcl || Call(s.xcl, s'.xcl, t) || Release(s.xcl, s'.xcl, t)
    ensures s'.wrt == s.wrt || Call(s.wrt, s'.wrt, t) || Release(s.wrt, s'.wrt, t)
  {
    match s.pc[t]
    case Idle =>
    case WXcl =>
    case WWrt =>
    case WRel =>
    case RXcl =>
    case RWrt =>
    case RType =>
    case RRel =>
    case In(_) =>
    case Sub(_) =>
    case Rel(_) =>
  }

  lemma {:induction false} InitWakeful(s: State)
    requires Init(s) && |s.pc| <= WAITERS_MOD
    ensures Wakeful(s)
  {
    CountZero(Registered, s.xcl.loc);
    CountZero(Registered, s.wrt.loc);
  }

  lemma {:induction false} RunKeepsWakeful(r: seq<State>, i: nat)
    requires Run(r) && i < |r| && |r[0].pc| <= WAITERS_MOD
    ensures Wakeful(r[i])
  {
    hide Wakeful, LockInv, StepBy, Init;
    if i == 0 {
      InitWakeful(r[0]);
    } else {
      RunKeepsWakeful(r, i - 1);
      RunKeepsLockInv(r, i - 1);
      assert Step(r[i - 1], r[i - 1 + 1]);
      StepKeepsWakeful(r[i - 1], r[i]);
    }
  }

  /** A thread that waits for the mutex: asleep, or about to find the bit set once more. */
  predicate Blocked(m: Mutex, t: nat)
    requires t < |m.loc|
  {
    m.loc[t] == Asleep || (m.word.xcl && (m.loc[t].Spin? || m.loc[t].Register? || m.loc[t].WaitCall?))
  }

  /** A thread whose next operation is not one more try for a mutex that somebody holds. */
  ghost predicate GoesOn(s: State, t: nat)
    requires Shape(s) && t < |s.pc|
  {
    !Blocked(s.xcl, t) && !Blocked(s.wrt, t)
  }

  ghost predicate Busy(s: State, t: nat)
    requires Shape(s) && t < |s.pc|
  {
    s.pc[t] != Idle || s.xcl.loc[t] != Out || s.wrt.loc[t] != Out
  }

  /** The lock never deadlocks: while any thread uses it, some thread that uses it can really go on. */
  lemma {:induction false} NoDeadlock(r: seq<State>, i: nat)
    requires Run(r) && i < |r| && |r[0].pc| <= WAITERS_MOD
    ensures LockInv(r[i])
    ensures (exists t: nat :: t < |r[i].pc| && Busy(r[i], t)) ==>
              exists t: nat :: t < |r[i].pc| && Busy(r[i], t) && GoesOn(r[i], t)
  {
    RunKeepsLockInv(r, i);
    RunKeepsWakeful(r, i);
    var s := r[i];
    if exists t: nat :: t < |s.pc| && Busy(s, t) {
      var t: nat :| t < |s.pc| && Busy(s, t);
      var u := SomeoneGoesOn(s, t);
    }
  }

  lemma {:induction false} SomeoneGoesOn(s: State, t: nat) returns (u: nat)
    requires LockInv(s) && Wakeful(s) && t < |s.pc| && Busy(s, t)
    ensures u < |s.pc| && Busy(s, u) && GoesOn(s, u)
  {
    hide WrtExact, ReadersExact, TypeExact, NoLostWakeup, Inv, OwnsWrt;
    if s.wrt.word.xcl {
      u := WrtOwner(s);
      OwnerGoesOn(s, u);
    } else if s.xcl.word.xcl {
      u :| 0 <= u < |s.pc| && OwnsXcl(s, u);
      if s.wrt.loc[u] == Asleep { u := WrtHelper(s, u); }
    } else if s.wrt.loc[t] == Asleep {
      u := WrtHelper(s, t);
    } else if s.xcl.loc[t] == Asleep {
      u := XclHelper(s, t);
    } else {
      u := t;
    }
  }

  /** A thread that `wrt` is held by: its writer, or a reader that does not wait itself. */
  ghost predicate HoldsWrt(s: State, t: nat)
    requires Shape(s) && t < |s.pc|
  {
    OwnsWrt(s, t) || Leaving(s.pc[t]) || (Joined(s.pc[t]) && !WaitsWrt(s, t))
  }

  lemma {:induction false} WrtOwner(s: State) returns (u: nat)
    requires LockInv(s) && s.wrt.word.xcl
    ensures u < |s.pc| && HoldsWrt(s, u)
  {
    CountZero(Leaving, s.pc);
    CountZero(Joined, s.pc);
    if WriterOwns(s) {
      u :| 0 <= u < |s.pc| && OwnsWrt(s, u);
    } else if Leavers(s) > 0 {
      u :| 0 <= u < |s.pc| && Leaving(s.pc[u]);
    } else if Waiting(s) {
      var w: nat :| w < |s.pc| && WaitsWrt(s, w);
      u := OtherWitness(Joined, s.pc, w, Idle);
      if WaitsWrt(s, u) { XclUnique(s, u, w); }
    } else {
      u :| 0 <= u < |s.pc| && Joined(s.pc[u]);
      assert !WaitsWrt(s, u);
    }
  }

  lemma {:induction false} OwnerGoesOn(s: State, u: nat)
    requires LockInv(s) && u < |s.pc| && HoldsWrt(s, u)
    ensures Busy(s, u) && GoesOn(s, u)
  {
    hide WrtExact, ReadersExact, TypeExact, XclExact;
  }

  /** A sleeper on the free mutex has help from a thread that goes on. */
  lemma {:induction false} WrtHelper(s: State, t: nat) returns (u: nat)
    requires LockInv(s) && Wakeful(s) && t < |s.pc| && s.wrt.loc[t] == Asleep && !s.wrt.word.xcl
    ensures u < |s.pc| && Busy(s, u) && GoesOn(s, u)
  {
    hide WrtExact, ReadersExact, TypeExact, XclExact, Inv;
    assert HasSleeper(s.wrt);
    u :| 0 <= u < |s.pc| && (s.wrt.loc[u].WakeCall? || AwakeWaiter(s.wrt.loc[u]));
  }

  lemma {:induction false} XclHelper(s: State, t: nat) returns (u: nat)
    requires LockInv(s) && Wakeful(s) && t < |s.pc| && s.xcl.loc[t] == Asleep && !s.xcl.word.xcl
    ensures u < |s.pc| && Busy(s, u) && GoesOn(s, u)
  {
    hide WrtExact, ReadersExact, TypeExact, XclExact, Inv;
    assert HasSleeper(s.xcl);
    u :| 0 <= u < |s.pc| && (s.xcl.loc[u].WakeCall? || AwakeWaiter(s.xcl.loc[u]));
  }

  // ---------- the other side of the bound: 0x10001 threads can lose a wakeup ----------

  ghost predicate Reachable(s: State) {
    exists r: seq<State> :: Run(r) && r[|r| - 1] == s
  }

  lemma {:induction false} ReachStep(s: State, s': State, t: nat)
    requires Reachable(s) && Shape(s) && Shape(s') && StepBy(s, s', t)
    ensures Reachable(s')
  {
    var r: seq<State> :| Run(r) && r[|r| - 1] == s;
    var r' := r + [s'];
    forall i | 0 <= i < |r'| - 1 ensures Step(r'[i], r'[i + 1]) {
      if i < |r| - 1 {
        assert Step(r[i], r[i + 1]);
      } else {
        assert r'[i] == s && r'[i + 1] == s';
      }
    }
    assert Run(r') && r'[|r'| - 1] == s';
  }

  ghost function Fill(n: nat, zero: Local, k: nat, next: Local): (loc: seq<Local>)
    ensures |loc| == n
  {
    seq(n, i => if i == 0 then zero else if i <= k then Asleep else if i == k + 1 then next else Out)
  }

  ghost function FillPc(n: nat, zero: Pc, k: nat): (pc: seq<Pc>)
    ensures |pc| == n
  {
    seq(n, i => if i == 0 then zero else if i <= k then WXcl else Idle)
  }

  /** Thread 0 is about to release xcl in writeLock, threads 1..k sleep, thread k + 1 is at `next`. */
  ghost function Crowd(n: nat, k: nat, waiters: nat, next: Local): State {
    State(Mutex(Word(true, waiters), Fill(n, Out, k, next)), Mutex(Word(true, 0), Fill(n, Out, 0, Out)),
          0, 1, FillPc(n, WRel, if next == Out then k else k + 1))
  }

  ghost function Start(n: nat, xcl: bool, wrt: bool, typ: nat, x0: Local, w0: Local, pc0: Pc): State {
    State(Mutex(Word(xcl, 0), Fill(n, x0, 0, Out)), Mutex(Word(wrt, 0), Fill(n, w0, 0, Out)),
          0, typ, FillPc(n, pc0, 0))
  }

  /** Thread 0 runs writeLock alone up to its release of xcl. */
  lemma {:induction false} ReachFirstWriter(n: nat)
    requires n >= 1
    ensures Reachable(Crowd(n, 0, 0, Out))
  {
    var s0 := Start(n, false, false, 0, Out, Out, Idle);
    var s1 := Start(n, false, false, 0, Spin(0, false), Out, WXcl);
    var s2 := Start(n, true, false, 0, Out, Out, WXcl);
    assert Run([s0]) && [s0][|[s0]| - 1] == s0;
    StartStep(n, s0, s1);
    StartStep(n, s1, s2);
    ReachFirstWriterWrt(n);
  }

  lemma {:induction false} ReachFirstWriterWrt(n: nat)
    requires n >= 1 && Reachable(Start(n, true, false, 0, Out, Out, WXcl))
    ensures Reachable(Crowd(n, 0, 0, Out))
  {
    var s2 := Start(n, true, false, 0, Out, Out, WXcl);
    var s3 := Start(n, true, false, 0, Out, Spin(0, false), WWrt);
    var s4 := Start(n, true, true, 0, Out, Out, WWrt);
    var s5 := Start(n, true, true, 1, Out, Out, WRel);
    StartStep(n, s2, s3);
    StartStep(n, s3, s4);
    StartStep(n, s4, s5);
    assert s5 == Crowd(n, 0, 0, Out);
  }

  /** One operation of thread 0. */
  lemma {:induction false} StartStep(n: nat, s: State, s': State)
    requires n >= 1 && Reachable(s) && Shape(s) && Shape(s') && |s.pc| == n
    requires XclMicro(s, s', 0) || WrtMicro(s, s', 0) || Instr(s, s', 0)
    ensures Reachable(s')
  {
    ReachStep(s, s', 0);
  }

  lemma {:induction false} ReachSpinning(n: nat, k: nat, w: nat, i: nat)
    requires k + 1 < n && i < SPINS && Reachable(Crowd(n, k, w, Out))
    ensures Reachable(Crowd(n, k, w, Spin(i, false)))
  {
    if i == 0 {
      var s, s' := Crowd(n, k, w, Out), Crowd(n, k, w, Spin(0, false));
      assert s'.xcl.loc == s.xcl.loc[k + 1 := Spin(0, false)];
      assert s'.pc == s.pc[k + 1 := WXcl];
      assert Instr(s, s', k + 1);
      ReachStep(s, s', k + 1);
    } else {
      ReachSpinning(n, k, w, i - 1);
      NextMicro(n, k, w, Spin(i - 1, false), w, Spin(i, false));
    }
  }

  lemma {:induction false} NextMicro(n: nat, k: nat, w: nat, l: Local, w': nat, l': Local)
    requires k + 1 < n && l != Out && l' != Out && Reachable(Crowd(n, k, w, l))
    requires (l.Spin? && w' == w && l' == AfterFetchOr(Word(true, w), l.idx, l.waited))
             || (l.Register? && w' == Incr(w) && l' == WaitCall(l.seen.(waiters := Incr(l.seen.waiters))))
             || (l == WaitCall(Word(true, w)) && w' == w && l' == Asleep)
    ensures Reachable(Crowd(n, k, w', l'))
  {
    var s, s' := Crowd(n, k, w, l), Crowd(n, k, w', l');
    assert s'.xcl.loc == s.xcl.loc[k + 1 := l'];
    assert XclMicro(s, s', k + 1);
    ReachStep(s, s', k + 1);
  }

  lemma {:induction false} NextCrowd(n: nat, j: nat, w: nat)
    requires j + 1 < n
    ensures Crowd(n, j, w, Asleep) == Crowd(n, j + 1, w, Out)
  {
  }

  lemma {:induction false} ReachCrowd(n: nat, k: nat)
    requires k < n
    ensures Reachable(Crowd(n, k, k % WAITERS_MOD, Out))
  {
    hide Reachable, Crowd;
    if k == 0 {
      ReachFirstWriter(n);
    } else {
      var j, w := k - 1, (k - 1) % WAITERS_MOD;
      ReachCrowd(n, j);
      ReachSpinning(n, j, w, SPINS - 1);
      WrapStep(j);
      var w' := Incr(w);
      NextMicro(n, j, w, Spin(SPINS - 1, false), w, Register(Word(true, w)));
      NextMicro(n, j, w, Register(Word(true, w)), w', WaitCall(Word(true, w')));
      NextMicro(n, j, w', WaitCall(Word(true, w')), w', Asleep);
      NextCrowd(n, j, w');
    }
  }

  /** The releaser reads a waiter count of zero and wakes nobody. */
  lemma {:induction false} SilentRelease(n: nat, k: nat)
    requires 0 < k < n && Reachable(Crowd(n, k, 0, Out))
    ensures exists s: State :: Reachable(s) && |s.pc| == n && !NoLostWakeup(s.xcl)
  {
    var s := Crowd(n, k, 0, Out);
    var s' := s.(xcl := Mutex(Word(false, 0), s.xcl.loc), pc := s.pc[0 := In(Writer)]);
    assert s.xcl.loc == s.xcl.loc[0 := Out];
    assert s.xcl.loc[0] == Out && s.wrt.loc[0] == Out && s.pc[0] == WRel;
    assert Release(s.xcl, s'.xcl, 0);
    assert Instr(s, s', 0);
    ReachStep(s, s', 0);
    assert s'.xcl.loc[1] == Asleep;
    assert forall i | 0 <= i < n :: s'.xcl.loc[i] == Out || s'.xcl.loc[i] == Asleep;
  }

  /** 0x10000 threads can end up asleep on a free mutex. */
  lemma {:induction false} WakeupLost(n: nat)
    requires n > WAITERS_MOD
    ensures exists r: seq<State> :: Run(r) && |r[0].pc| == n && !NoLostWakeup(r[|r| - 1].xcl)
  {
    ReachCrowd(n, WAITERS_MOD);
    SilentRelease(n, WAITERS_MOD);
    var s: State :| Reachable(s) && |s.pc| == n && !NoLostWakeup(s.xcl);
    var r: seq<State> :| Run(r) && r[|r| - 1] == s;
    RunKeepsLockInv(r, |r| - 1);
  }

  /** Sleeping threads are always woken exactly as long as the 16-bit waiter count cannot wrap. */
  lemma {:induction false} WakeupsExactly(n: nat)
    ensures (forall r: seq<State>, i: nat | Run(r) && |r[0].pc| == n && i < |r| ::
               NoLostWakeup(r[i].xcl) && NoLostWakeup(r[i].wrt))
            <==> n <= WAITERS_MOD
  {
    if n <= WAITERS_MOD {
      forall r: seq<State>, i: nat | Run(r) && |r[0].pc| == n && i < |r|
        ensures NoLostWakeup(r[i].xcl) && NoLostWakeup(r[i].wrt)
      {
        RunKeepsWakeful(r, i);
      }
    } else {
      WakeupLost(n);
    }
  }

  // ---------- 0x10001 threads can make a reader group release too early ----------

  ghost function At(n: nat, k: nat, l: Local): (loc: seq<Local>)
    ensures |loc| == n
  {
    seq(n, i => if i == k then l else Out)
  }

  /** Readers 0..k-1 hold the lock, with reader 0 at `zero`; thread k is at `pc`, `x` and `w`. */
  ghost function Crew(n: nat, k: nat, zero: Pc, pc: Pc, xcl: bool, x: Local, wrt: bool, w: Local, readers: nat): State {
    State(Mutex(Word(xcl, 0), At(n, k, x)), Mutex(Word(wrt, 0), At(n, k, w)), readers, 0,
          seq(n, i => if i < k then (if i == 0 then zero else In(Reader)) else if i == k then pc else Idle))
  }

  /** One operation of thread k inside its call of readLock. */
  lemma {:induction false} CrewStep(n: nat, k: nat, s: State, s': State)
    requires k < n && Reachable(s) && Shape(s) && Shape(s') && |s.pc| == n
    requires XclMicro(s, s', k) || WrtMicro(s, s', k) || Instr(s, s', k)
    ensures Reachable(s')
  {
    ReachStep(s, s', k);
  }

  /** Thread k enters readLock and reaches its fetch-add. */
  lemma {:induction false} ReachAdd(n: nat, k: nat, wrt: bool, readers: nat)
    requires k < n && Reachable(Crew(n, k, In(Reader), Idle, false, Out, wrt, Out, readers))
    ensures Reachable(Crew(n, k, In(Reader), RXcl, true, Out, wrt, Out, readers))
  {
    var s0 := Crew(n, k, In(Reader), Idle, false, Out, wrt, Out, readers);
    var s1 := Crew(n, k, In(Reader), RXcl, false, Spin(0, false), wrt, Out, readers);
    var s2 := Crew(n, k, In(Reader), RXcl, true, Out, wrt, Out, readers);
    assert s1.xcl.loc == s0.xcl.loc[k := Spin(0, false)] && s1.pc == s0.pc[k := RXcl];
    assert s2.xcl.loc == s1.xcl.loc[k := Out];
    CrewStep(n, k, s0, s1);
    CrewStep(n, k, s1, s2);
  }

  /** Thread k stores the type and leaves readLock. */
  lemma {:induction false} ReachIn(n: nat, k: nat, pc: Pc, readers: nat)
    requires k < n && (pc == RType || pc == RWrt)
    requires Reachable(Crew(n, k, In(Reader), pc, true, Out, true, Out, readers))
    ensures Reachable(Crew(n, k, In(Reader), In(Reader), false, Out, true, Out, readers))
  {
    var s0 := Crew(n, k, In(Reader), pc, true, Out, true, Out, readers);
    var s1 := Crew(n, k, In(Reader), RRel, true, Out, true, Out, readers);
    var s2 := Crew(n, k, In(Reader), In(Reader), false, Out, true, Out, readers);
    assert s1.pc == s0.pc[k := RRel];
    assert s2.pc == s1.pc[k := In(Reader)] && s2.xcl.loc == s1.xcl.loc[k := Out];
    CrewStep(n, k, s0, s1);
    CrewStep(n, k, s1, s2);
  }

  lemma {:induction false} ReachFirstReader(n: nat)
    requires n >= 1
    ensures Reachable(Crew(n, 0, In(Reader), In(Reader), false, Out, true, Out, 1))
  {
    var s0 := Crew(n, 0, In(Reader), Idle, false, Out, false, Out, 0);
    assert Run([s0]) && [s0][|[s0]| - 1] == s0;
    ReachAdd(n, 0, false, 0);
    ReachFirstReaderWrt(n);
    ReachIn(n, 0, RWrt, 1);
  }

  lemma {:induction false} ReachFirstReaderWrt(n: nat)
    requires n >= 1 && Reachable(Crew(n, 0, In(Reader), RXcl, true, Out, false, Out, 0))
    ensures Reachable(Crew(n, 0, In(Reader), RWrt, true, Out, true, Out, 1))
  {
    var s1 := Crew(n, 0, In(Reader), RXcl, true, Out, false, Out, 0);
    var s2 := Crew(n, 0, In(Reader), RWrt, true, Out, false, Spin(0, false), 1);
    var s3 := Crew(n, 0, In(Reader), RWrt, true, Out, true, Out, 1);
    assert s2.pc == s1.pc[0 := RWrt] && s2.wrt.loc == s1.wrt.loc[0 := Spin(0, false)];
    CrewStep(n, 0, s1, s2);
    assert s3.wrt.loc == s2.wrt.loc[0 := Out];
    CrewStep(n, 0, s2, s3);
  }

  /** Threads 0..k all become readers. */
  lemma {:induction false} ReachCrew(n: nat, k: nat)
    requires k < n && k < READERS_MOD
    ensures Reachable(Crew(n, k, In(Reader), In(Reader), false, Out, true, Out, (k + 1) % READERS_MOD))
  {
    if k == 0 {
      ReachFirstReader(n);
    } else {
      ReachCrew(n, k - 1);
      CrewGrows(n, k - 1, k);
      ReachLaterReader(n, k);
    }
  }

  /** Once thread k is a reader, the next thread can be looked at. */
  lemma {:induction false} CrewGrows(n: nat, k: nat, readers: nat)
    requires k + 1 < n
    ensures Crew(n, k, In(Reader), In(Reader), false, Out, true, Out, readers)
         == Crew(n, k + 1, In(Reader), Idle, false, Out, true, Out, readers)
  {
  }

  lemma {:induction false} ReachLaterReader(n: nat, k: nat)
    requires 0 < k < n && k < READERS_MOD && Reachable(Crew(n, k, In(Reader), Idle, false, Out, true, Out, k))
    ensures Reachable(Crew(n, k, In(Reader), In(Reader), false, Out, true, Out, (k + 1) % READERS_MOD))
  {
    ReachAdd(n, k, true, k);
    var s := Crew(n, k, In(Reader), RXcl, true, Out, true, Out, k);
    var s' := Crew(n, k, In(Reader), RType, true, Out, true, Out, (k + 1) % READERS_MOD);
    assert s'.pc == s.pc[k := RType];
    assert s.xcl.loc[k] == Out && s.wrt.loc[k] == Out && s.pc[k] == RXcl;
    CrewStep(n, k, s, s');
    ReachIn(n, k, RType, (k + 1) % READERS_MOD);
  }

  ghost predicate EarlyRelease(s: State) {
    exists t, u | 0 <= t < |s.pc| && 0 <= u < |s.pc| :: s.pc[t] == Rel(Reader) && s.pc[u] == In(Reader)
  }

  /** Reader 0x10001 wraps the count to one, and the next reader to leave takes itself for the last. */
  lemma {:induction false} WrappedCountReleasesEarly(n: nat, k: nat)
    requires 2 <= k < n && Reachable(Crew(n, k, In(Reader), Idle, false, Out, true, Out, 0))
    ensures exists s: State :: Reachable(s) && |s.pc| == n && EarlyRelease(s)
  {
    hide Reachable;
    ReachAdd(n, k, true, 0);
    var s0 := Crew(n, k, In(Reader), RXcl, true, Out, true, Out, 0);
    var s1 := Crew(n, k, In(Reader), RWrt, true, Out, true, Spin(0, false), 1);
    var s2 := Crew(n, k, Sub(Reader), RWrt, true, Out, true, Spin(0, false), 1);
    var s3 := Crew(n, k, Rel(Reader), RWrt, true, Out, true, Spin(0, false), 0);
    assert s1.pc == s0.pc[k := RWrt] && s1.wrt.loc == s0.wrt.loc[k := Spin(0, false)];
    CrewStep(n, k, s0, s1);
    assert s2.pc == s1.pc[0 := Sub(Reader)];
    assert Instr(s1, s2, 0);
    ReachStep(s1, s2, 0);
    assert s3.pc == s2.pc[0 := Rel(Reader)];
    assert Instr(s2, s3, 0);
    ReachStep(s2, s3, 0);
    assert s3.pc[0] == Rel(Reader) && s3.pc[1] == In(Reader);
  }

  lemma {:induction false} EarlyReleaseReachable(n: nat)
    requires n > READERS_MOD
    ensures exists s: State :: Reachable(s) && |s.pc| == n && EarlyRelease(s)
  {
    var k := READERS_MOD - 1;
    ReachCrew(n, k);
    assert (k + 1) % READERS_MOD == 0;
    CrewGrows(n, k, 0);
    WrappedCountReleasesEarly(n, k + 1);
  }

  /** A reader group gives `wrt` back only after its last reader, exactly up to 0x10000 threads. */
  lemma {:induction false} GroupReleaseExactly(n: nat)
    ensures (forall r: seq<State>, i: nat | Run(r) && |r[0].pc| == n && i < |r| :: !EarlyRelease(r[i]))
            <==> n <= READERS_MOD
  {
    if n <= READERS_MOD {
      forall r: seq<State>, i: nat | Run(r) && |r[0].pc| == n && i < |r| ensures !EarlyRelease(r[i]) {
        if EarlyRelease(r[i]) {
          var t, u :| 0 <= t < |r[i].pc| && 0 <= u < |r[i].pc| && r[i].pc[t] == Rel(Reader) && r[i].pc[u] == In(Reader);
          GroupReleasesLast(r, i, t);
        }
      }
    } else {
      EarlyReleaseReachable(n);
      var s: State :| Reachable(s) && |s.pc| == n && EarlyRelease(s);
      var r: seq<State> :| Run(r) && r[|r| - 1] == s;
      RunKeepsLockInv(r, |r| - 1);
    }
  }
}
