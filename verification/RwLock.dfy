/**
 The reader/writer lock: two futex mutexes, a 16-bit reader count and a type byte, shared
 by any number of threads. A step is one atomic operation of one thread.
 */
module RwLock {
  import opened Counting
  import opened FutexMutex

  const READERS_MOD := 0x10000 // `readers` is a 16-bit field and wraps

  datatype Role = Writer | Reader

  /** The next operation of a thread; a lock call named here has been entered. */
  datatype Pc =
    | Idle
    | WXcl            // writeLock: in bt_mutexlock(xcl)
    | WWrt            // writeLock: in bt_mutexlock(wrt), then type = 1
    | WRel            // writeLock: release xcl
    | RXcl            // readLock: in bt_mutexlock(xcl), then the fetch-add on readers
    | RWrt            // readLock, first reader: in bt_mutexlock(wrt), then type = 0
    | RType           // readLock, later reader: type = 0
    | RRel            // readLock: release xcl
    | In(role: Role)  // holds the lock; rwUnlock will read type
    | Sub(role: Role) // rwUnlock saw type 0: the fetch-sub on readers
    | Rel(role: Role) // rwUnlock: release wrt

  datatype State = State(xcl: Mutex, wrt: Mutex, readers: nat, typ: nat, pc: seq<Pc>)

  ghost predicate Shape(s: State) {
    |s.xcl.loc| == |s.pc| && |s.wrt.loc| == |s.pc|
  }

  ghost predicate Init(s: State) {
    && Shape(s)
    && s.xcl.word == Word(false, 0) && s.wrt.word == Word(false, 0) && s.readers == 0
    && forall t | 0 <= t < |s.pc| :: s.pc[t] == Idle && s.xcl.loc[t] == Out && s.wrt.loc[t] == Out
  }

  /** An instruction of writeLock, readLock or rwUnlock by a thread outside of both mutex calls. */
  ghost predicate Instr(s: State, s': State, t: nat)
    requires Shape(s) && t < |s.pc|
  {
    && s.xcl.loc[t] == Out && s.wrt.loc[t] == Out
    && match s.pc[t]
       case Idle =>
         && Call(s.xcl, s'.xcl, t)
         && (s' == s.(xcl := s'.xcl, pc := s.pc[t := WXcl]) || s' == s.(xcl := s'.xcl, pc := s.pc[t := RXcl]))
       case WXcl =>
         Call(s.wrt, s'.wrt, t) && s' == s.(wrt := s'.wrt, pc := s.pc[t := WWrt])
       case WWrt =>
         s' == s.(typ := 1, pc := s.pc[t := WRel])
       case WRel =>
         Release(s.xcl, s'.xcl, t) && s' == s.(xcl := s'.xcl, pc := s.pc[t := In(Writer)])
       case RXcl =>
         var added := (s.readers + 1) % READERS_MOD;
         if s.readers == 0 then
           Call(s.wrt, s'.wrt, t) && s' == s.(wrt := s'.wrt, readers := added, pc := s.pc[t := RWrt])
         else
           s' == s.(readers := added, pc := s.pc[t := RType])
       case RWrt =>
         s' == s.(typ := 0, pc := s.pc[t := RRel])
       case RType =>
         s' == s.(typ := 0, pc := s.pc[t := RRel])
       case RRel =>
         Release(s.xcl, s'.xcl, t) && s' == s.(xcl := s'.xcl, pc := s.pc[t := In(Reader)])
       case In(role) =>
         s' == s.(pc := s.pc[t := if s.typ != 0 then Rel(role) else Sub(role)])
       case Sub(role) =>
         s' == s.(readers := (s.readers + READERS_MOD - 1) % READERS_MOD,
                  pc := s.pc[t := if s.readers == 1 then Rel(role) else Idle])
       case Rel(role) =>
         Release(s.wrt, s'.wrt, t) && s' == s.(wrt := s'.wrt, pc := s.pc[t := Idle])
  }

  ghost predicate XclMicro(s: State, s': State, t: nat) {
    Micro(s.xcl, s'.xcl, t) && s' == s.(xcl := s'.xcl)
  }

  ghost predicate WrtMicro(s: State, s': State, t: nat) {
    Micro(s.wrt, s'.wrt, t) && s' == s.(wrt := s'.wrt)
  }

  ghost predicate StepBy(s: State, s': State, t: nat)
    requires Shape(s)
  {
    t < |s.pc| && (XclMicro(s, s', t) || WrtMicro(s, s', t) || Instr(s, s', t))
  }

  ghost predicate Step(s: State, s': State)
    requires Shape(s)
  {
    exists t: nat :: StepBy(s, s', t)
  }

  ghost predicate Run(r: seq<State>) {
    && |r| > 0 && Init(r[0])
    && (forall i | 0 <= i < |r| :: Shape(r[i]))
    && forall i | 0 <= i < |r| - 1 :: Step(r[i], r[i + 1])
  }

  // ---------- who owns what ----------

  /** Bit acquired, even when the thread still has to leave the waiters count. */
  predicate Got(l: Local) { l == Out || l == Deregister }

  ghost predicate OwnsXcl(s: State, t: nat)
    requires Shape(s) && t < |s.pc|
  {
    match s.pc[t]
    case WXcl => Got(s.xcl.loc[t])
    case RXcl => Got(s.xcl.loc[t])
    case WWrt => true
    case WRel => true
    case RWrt => true
    case RType => true
    case RRel => true
    case _ => false
  }

  /** The thread owns `wrt` as a writer. */
  ghost predicate OwnsWrt(s: State, t: nat)
    requires Shape(s) && t < |s.pc|
  {
    match s.pc[t]
    case WWrt => Got(s.wrt.loc[t])
    case WRel => true
    case In(Writer) => true
    case Rel(Writer) => true
    case _ => false
  }

  /** A reader that announced itself and now waits for `wrt` on behalf of its group. */
  ghost predicate WaitsWrt(s: State, t: nat)
    requires Shape(s) && t < |s.pc|
  {
    s.pc[t] == RWrt && !Got(s.wrt.loc[t])
  }

  ghost predicate Waiting(s: State) requires Shape(s) {
    exists t :: 0 <= t < |s.pc| && WaitsWrt(s, t)
  }

  ghost predicate WriterOwns(s: State) requires Shape(s) {
    exists t :: 0 <= t < |s.pc| && OwnsWrt(s, t)
  }

  /** The readers between their fetch-add and their fetch-sub. */
  predicate Joined(pc: Pc) {
    match pc
    case RWrt => true
    case RType => true
    case RRel => true
    case In(Reader) => true
    case Sub(Reader) => true
    case _ => false
  }

  predicate Leaving(pc: Pc) { pc == Rel(Reader) }

  /** Readers that already hold the lock on behalf of their caller, or are about to return with it. */
  predicate ReaderInside(pc: Pc) { pc == RRel || pc == In(Reader) || pc == Sub(Reader) }

  ghost function Members(s: State): nat { Count(Joined, s.pc) }

  ghost function Leavers(s: State): nat { Count(Leaving, s.pc) }

  /**
   How many times the reader side holds `wrt`. A second acquisition is due when the 16-bit
   count wraps, which takes 0x10001 readers.
   */
  ghost function GroupHolds(s: State): int
    requires Shape(s)
  {
    (if Members(s) >= 1 then 1 else 0) + (if Members(s) > READERS_MOD then 1 else 0)
    - (if Waiting(s) then 1 else 0) + Leavers(s)
  }

  // ---------- the inductive invariant ----------

  ghost predicate XclExact(s: State) requires Shape(s) {
    && (forall t, u | 0 <= t < u < |s.pc| :: !(OwnsXcl(s, t) && OwnsXcl(s, u)))
    && (s.xcl.word.xcl <==> exists t :: 0 <= t < |s.pc| && OwnsXcl(s, t))
  }

  ghost predicate WrtExact(s: State) requires Shape(s) {
    && (forall t, u | 0 <= t < u < |s.pc| :: !(OwnsWrt(s, t) && OwnsWrt(s, u)))
    && 0 <= GroupHolds(s) <= 1
    && (s.wrt.word.xcl <==> (WriterOwns(s) || GroupHolds(s) == 1))
    && (WriterOwns(s) ==> GroupHolds(s) == 0 && Members(s) == (if Waiting(s) then 1 else 0))
  }

  ghost predicate ReadersExact(s: State) requires Shape(s) {
    && s.readers == Members(s) % READERS_MOD
    && Members(s) <= READERS_MOD + 1
    && (Members(s) == READERS_MOD + 1 ==> Waiting(s))
  }

  ghost predicate TypeExact(s: State) requires Shape(s) {
    forall t | 0 <= t < |s.pc| ::
      && s.pc[t] != Sub(Writer)
      && (s.pc[t] == WRel || s.pc[t] == In(Writer) || s.pc[t] == Rel(Writer) ==> s.typ == 1)
      && (ReaderInside(s.pc[t]) ==> s.typ == 0)
  }

  /** A thread is inside bt_mutexlock only at a lock call, and has a wake pending only elsewhere. */
  ghost predicate CallsExact(s: State) requires Shape(s) {
    forall t | 0 <= t < |s.pc| ::
      && (s.xcl.loc[t] == Out || s.wrt.loc[t] == Out)
      && (s.xcl.loc[t] == Out || (s.xcl.loc[t] == WakeCall <==> s.pc[t] != WXcl && s.pc[t] != RXcl))
      && (s.wrt.loc[t] == Out || (s.wrt.loc[t] == WakeCall <==> s.pc[t] != WWrt && s.pc[t] != RWrt))
  }

  ghost predicate LockInv(s: State) {
    && Shape(s) && XclExact(s) && WrtExact(s) && ReadersExact(s) && TypeExact(s) && CallsExact(s)
  }

  // ---------- preservation ----------

  /** What a mutex operation of thread `t` can change for the reader/writer protocol. */
  lemma {:induction false} MicroEffect(m: Mutex, m': Mutex, t: nat)
    requires Micro(m, m', t)
    ensures |m'.loc| == |m.loc|
    ensures m'.word.xcl == (m.word.xcl || m.loc[t].Spin?)
    ensures forall u | 0 <= u < |m.loc| && m.loc[u] == WakeCall :: m'.loc[u] == WakeCall || m'.loc[u] == Out
    ensures forall u | 0 <= u < |m.loc| && m.loc[u] != WakeCall ::
              && m'.loc[u] != WakeCall
              && (Got(m'.loc[u]) <==> Got(m.loc[u]) || (u == t && m.loc[u].Spin? && !m.word.xcl))
              && (m.loc[u] == Out ==> m'.loc[u] == Out)
  {
  }

  lemma {:induction false} XclMicroKeeps(s: State, s': State, t: nat)
    requires LockInv(s) && XclMicro(s, s', t)
    ensures LockInv(s')
  {
    MicroEffect(s.xcl, s'.xcl, t);
    assert forall u | 0 <= u < |s.pc| ::
        OwnsXcl(s', u) <==> OwnsXcl(s, u) || (u == t && s.xcl.loc[t].Spin? && !s.xcl.word.xcl);
    assert forall u | 0 <= u < |s.pc| :: OwnsWrt(s', u) == OwnsWrt(s, u) && WaitsWrt(s', u) == WaitsWrt(s, u);
    assert Waiting(s') == Waiting(s) && WriterOwns(s') == WriterOwns(s);
    if s.xcl.loc[t].Spin? && !s.xcl.word.xcl {
      assert OwnsXcl(s', t);
    } else if s.xcl.word.xcl {
      var u :| 0 <= u < |s.pc| && OwnsXcl(s, u);
      assert OwnsXcl(s', u);
    }
  }

  /** Two threads cannot both stand between acquiring and releasing `xcl`. */
  lemma {:induction false} XclUnique(s: State, t: nat, u: nat)
    requires LockInv(s) && t < |s.pc| && u < |s.pc| && OwnsXcl(s, t) && OwnsXcl(s, u)
    ensures t == u
  {
  }

  lemma {:induction false} WrtMicroKeeps(s: State, s': State, t: nat)
    requires LockInv(s) && WrtMicro(s, s', t)
    ensures LockInv(s')
  {
    MicroEffect(s.wrt, s'.wrt, t);
    assert forall u | 0 <= u < |s.pc| :: OwnsXcl(s', u) == OwnsXcl(s, u);
    var acquires := s.wrt.loc[t].Spin? && !s.wrt.word.xcl;
    assert forall u | 0 <= u < |s.pc| ::
        && (OwnsWrt(s', u) <==> OwnsWrt(s, u) || (u == t && acquires && s.pc[t] == WWrt))
        && (WaitsWrt(s', u) <==> WaitsWrt(s, u) && !(u == t && acquires && s.pc[t] == RWrt));
    if acquires && s.pc[t] == RWrt {
      forall u | 0 <= u < |s.pc| && WaitsWrt(s, u) ensures u == t { XclUnique(s, t, u); }
      assert WaitsWrt(s, t);
    } else if acquires {
      if Waiting(s) {
        var u :| 0 <= u < |s.pc| && WaitsWrt(s, u);
        XclUnique(s, t, u);
      }
      assert OwnsWrt(s', t);
    } else {
      assert Waiting(s') == Waiting(s) && WriterOwns(s') == WriterOwns(s);
    }
  }

  // An instruction of thread `t` changes the ownership facts of `t` alone.

  lemma {:induction false} InstrIsLocal(s: State, s': State, t: nat)
    requires Shape(s) && t < |s.pc| && Instr(s, s', t)
    ensures Shape(s')
    ensures s'.pc == s.pc[t := s'.pc[t]]
    ensures s'.xcl.loc == s.xcl.loc[t := s'.xcl.loc[t]]
    ensures s'.wrt.loc == s.wrt.loc[t := s'.wrt.loc[t]]
  {
    match s.pc[t]
    case Idle =>
    case WXcl =>
    case WWrt =>
    case WRel =>
    case RXcl =>
    case RWrt =>
    case RType =>
    case RRel =>
    case In(_) =>
    case Sub(_) =>
    case Rel(_) =>
  }

  lemma {:induction false} InstrKeepsCalls(s: State, s': State, t: nat)
    requires LockInv(s) && t < |s.pc| && Instr(s, s', t)
    ensures Shape(s') && CallsExact(s')
  {
    InstrIsLocal(s, s', t);
    match s.pc[t]
    case Idle =>
    case WXcl =>
    case WWrt =>
    case WRel =>
    case RXcl =>
    case RWrt =>
    case RType =>
    case RRel =>
    case In(_) =>
    case Sub(_) =>
    case Rel(_) =>
  }

  lemma {:induction false} InstrCounts(s: State, s': State, t: nat)
    requires LockInv(s) && t < |s.pc| && Instr(s, s', t)
    ensures Shape(s')
    ensures s'.pc == s.pc[t := s'.pc[t]]
    ensures forall u | 0 <= u < |s.pc| && u != t ::
              && OwnsXcl(s', u) == OwnsXcl(s, u) && OwnsWrt(s', u) == OwnsWrt(s, u)
              && WaitsWrt(s', u) == WaitsWrt(s, u)
    ensures Members(s') == Members(s) - (if Joined(s.pc[t]) then 1 else 0) + (if Joined(s'.pc[t]) then 1 else 0)
    ensures Leavers(s') == Leavers(s) - (if Leaving(s.pc[t]) then 1 else 0) + (if Leaving(s'.pc[t]) then 1 else 0)
  {
    InstrIsLocal(s, s', t);
    CountUpdate(Joined, s.pc, t, s'.pc[t]);
    CountUpdate(Leaving, s.pc, t, s'.pc[t]);
  }

  lemma {:induction false} NotWaitingWhileOwner(s: State, t: nat)
    requires LockInv(s) && t < |s.pc| && OwnsXcl(s, t) && !WaitsWrt(s, t)
    ensures !Waiting(s)
  {
    if Waiting(s) {
      var u :| 0 <= u < |s.pc| && WaitsWrt(s, u);
      XclUnique(s, t, u);
    }
  }

  /** A joined reader that does not wait itself excludes every writer. */
  lemma {:induction false} InsideExcludesWriters(s: State, t: nat)
    requires LockInv(s) && t < |s.pc| && Joined(s.pc[t]) && !WaitsWrt(s, t)
    ensures !WriterOwns(s)
  {
    if WriterOwns(s) {
      CountZero(Joined, s.pc);
      assert Waiting(s);
      var u :| 0 <= u < |s.pc| && WaitsWrt(s, u);
      CountTwo(Joined, s.pc, t, u, Idle);
    }
  }

  lemma {:induction false} OwnershipMoves(s: State, s': State, t: nat)
    requires LockInv(s) && t < |s.pc| && Instr(s, s', t)
    ensures Shape(s')
    ensures Waiting(s') <==> WaitsWrt(s', t) || (exists u :: 0 <= u < |s.pc| && u != t && WaitsWrt(s, u))
    ensures WriterOwns(s') <==> OwnsWrt(s', t) || (exists u :: 0 <= u < |s.pc| && u != t && OwnsWrt(s, u))
  {
    InstrCounts(s, s', t);
  }

  lemma {:induction false} InstrKeepsXcl(s: State, s': State, t: nat)
    requires LockInv(s) && t < |s.pc| && Instr(s, s', t)
    ensures Shape(s') && XclExact(s')
  {
    InstrCounts(s, s', t);
    if OwnsXcl(s, t) {
      forall u | 0 <= u < |s.pc| && OwnsXcl(s, u) ensures u == t { XclUnique(s, t, u); }
      assert s.xcl.word.xcl;
    } else {
      assert !OwnsXcl(s', t);
    }
    if s'.xcl.word.xcl {
      var u :| 0 <= u < |s.pc| && OwnsXcl(s, u);
      assert OwnsXcl(s', u);
    }
  }

  // `wrt` and `readers`, one kind of instruction at a time.

  /** The instructions that move no ownership of `wrt` and no reader count. */
  lemma {:induction false} NeutralInstr(s: State, s': State, t: nat)
    requires LockInv(s) && t < |s.pc| && Instr(s, s', t)
    requires OwnsWrt(s', t) == OwnsWrt(s, t) && WaitsWrt(s', t) == WaitsWrt(s, t)
    requires Joined(s'.pc[t]) == Joined(s.pc[t]) && Leaving(s'.pc[t]) == Leaving(s.pc[t])
    requires s'.wrt.word.xcl == s.wrt.word.xcl && s'.readers == s.readers
    ensures Shape(s') && WrtExact(s') && ReadersExact(s')
  {
    InstrCounts(s, s', t);
    OwnershipMoves(s, s', t);
    assert WriterOwns(s') == WriterOwns(s) && Waiting(s') == Waiting(s);
  }

  /** A reader joins: the fetch-add, and the call for `wrt` when it read zero. */
  lemma {:induction false} JoinKeeps(s: State, s': State, t: nat)
    requires LockInv(s) && t < |s.pc| && Instr(s, s', t) && s.pc[t] == RXcl
    ensures Shape(s') && WrtExact(s') && ReadersExact(s')
  {
    InstrCounts(s, s', t);
    OwnershipMoves(s, s', t);
    NotWaitingWhileOwner(s, t);
    assert WriterOwns(s') == WriterOwns(s);
    assert Waiting(s') == WaitsWrt(s', t);
    assert Members(s) <= READERS_MOD;
    assert s.readers == 0 <==> Members(s) == 0 || Members(s) == READERS_MOD;
    assert GroupHolds(s') == GroupHolds(s);
    assert Members(s') % READERS_MOD == s'.readers;
  }

  lemma {:induction false} ReadersWrap(n: nat)
    requires 1 <= n <= READERS_MOD + 1
    ensures n % READERS_MOD == 1 <==> n == 1 || n == READERS_MOD + 1
    ensures (n % READERS_MOD + READERS_MOD - 1) % READERS_MOD == (n - 1) % READERS_MOD
  {
  }

  /** A reader leaves: the fetch-sub, and the duty to release `wrt` when it read one. */
  lemma {:induction false} LeaveKeeps(s: State, s': State, t: nat)
    requires LockInv(s) && t < |s.pc| && Instr(s, s', t) && s.pc[t].Sub?
    ensures Shape(s') && WrtExact(s') && ReadersExact(s')
  {
    InstrCounts(s, s', t);
    LeaveIsQuiet(s, s', t);
    ReadersWrap(Members(s));
    assert s'.wrt == s.wrt;
    assert GroupHolds(s') == GroupHolds(s);
  }

  lemma {:induction false} LeaveIsQuiet(s: State, s': State, t: nat)
    requires LockInv(s) && t < |s.pc| && Instr(s, s', t) && s.pc[t].Sub?
    ensures Shape(s') && s.pc[t] == Sub(Reader) && Members(s) >= 1
    ensures forall u | 0 <= u < |s.pc| :: !OwnsWrt(s', u)
    ensures Waiting(s') == Waiting(s) && !WriterOwns(s') && !WriterOwns(s)
    ensures Members(s) == 1 ==> !Waiting(s)
  {
    InstrCounts(s, s', t);
    OwnershipMoves(s, s', t);
    assert s.pc[t] == Sub(Reader);
    InsideExcludesWriters(s, t);
    CountZero(Joined, s.pc);
    if Waiting(s) {
      var u :| 0 <= u < |s.pc| && WaitsWrt(s, u);
      CountTwo(Joined, s.pc, t, u, Idle);
    }
  }

  /** `wrt` is released by its writer, or once for a group of readers, and never when it is free. */
  lemma {:induction false} ReleaseKeeps(s: State, s': State, t: nat)
    requires LockInv(s) && t < |s.pc| && Instr(s, s', t) && s.pc[t].Rel?
    ensures Shape(s') && WrtExact(s') && ReadersExact(s')
    ensures s.wrt.word.xcl && !s'.wrt.word.xcl
  {
    InstrCounts(s, s', t);
    ReleaseIsQuiet(s, s', t);
    assert s'.readers == s.readers && s'.wrt.word.xcl == false;
  }

  lemma {:induction false} ReleaseIsQuiet(s: State, s': State, t: nat)
    requires LockInv(s) && t < |s.pc| && Instr(s, s', t) && s.pc[t].Rel?
    ensures Shape(s') && s.wrt.word.xcl
    ensures forall u | 0 <= u < |s.pc| :: !OwnsWrt(s', u)
    ensures Waiting(s') == Waiting(s) && !WriterOwns(s') && Members(s') == Members(s) && GroupHolds(s') == 0
  {
    InstrCounts(s, s', t);
    assert s'.pc[t] == Idle;
    assert !WaitsWrt(s, t) && !WaitsWrt(s', t) && !OwnsWrt(s', t);
    assert Waiting(s') == Waiting(s) by { OwnershipMoves(s, s', t); }
    ReleaserAlone(s, t);
  }

  /** The thread about to release `wrt` is its only owner. */
  lemma {:induction false} ReleaserAlone(s: State, t: nat)
    requires LockInv(s) && t < |s.pc| && s.pc[t].Rel?
    ensures s.wrt.word.xcl
    ensures forall u | 0 <= u < |s.pc| && u != t :: !OwnsWrt(s, u)
    ensures GroupHolds(s) == if s.pc[t] == Rel(Reader) then 1 else 0
    ensures Leavers(s) == if s.pc[t] == Rel(Reader) then 1 else 0
  {
    match s.pc[t].role
    case Writer =>
      assert OwnsWrt(s, t);
      assert Waiting(s) ==> Members(s) >= 1;
    case Reader =>
      CountZero(Leaving, s.pc);
      assert Leaving(s.pc[t]);
      if Waiting(s) {
        var u :| 0 <= u < |s.pc| && WaitsWrt(s, u);
        CountZero(Joined, s.pc);
      }
  }

  lemma {:induction false} InstrKeepsCounts(s: State, s': State, t: nat)
    requires LockInv(s) && t < |s.pc| && Instr(s, s', t)
    ensures Shape(s') && WrtExact(s') && ReadersExact(s')
  {
    if s.pc[t] == RXcl {
      JoinKeeps(s, s', t);
    } else if s.pc[t].Sub? {
      LeaveKeeps(s, s', t);
    } else if s.pc[t].Rel? {
      ReleaseKeeps(s, s', t);
    } else {
      InstrIsLocal(s, s', t);
      NeutralInstr(s, s', t);
    }
  }

  /** `type` is written only while the other side is outside. */
  lemma {:induction false} InstrKeepsType(s: State, s': State, t: nat)
    requires LockInv(s) && t < |s.pc| && Instr(s, s', t)
    ensures Shape(s') && TypeExact(s')
  {
    InstrIsLocal(s, s', t);
    if s.pc[t] == WWrt {
      assert OwnsWrt(s, t);
      NotWaitingWhileOwner(s, t);
      CountZero(Joined, s.pc);
    } else if s.pc[t] == RWrt || s.pc[t] == RType {
      InsideExcludesWriters(s, t);
      forall u | 0 <= u < |s.pc| && u != t
        ensures s'.pc[u] != WRel && s'.pc[u] != In(Writer) && s'.pc[u] != Rel(Writer)
      {
        assert !OwnsWrt(s, u);
      }
    }
  }

  lemma {:induction false} StepKeepsLockInv(s: State, s': State)
    requires LockInv(s) && Step(s, s')
    ensures LockInv(s')
  {
    var t: nat :| StepBy(s, s', t);
    if XclMicro(s, s', t) {
      XclMicroKeeps(s, s', t);
    } else if WrtMicro(s, s', t) {
      WrtMicroKeeps(s, s', t);
    } else {
      InstrKeepsXcl(s, s', t);
      InstrKeepsCalls(s, s', t);
      InstrKeepsCounts(s, s', t);
      InstrKeepsType(s, s', t);
    }
  }

  lemma {:induction false} InitHolds(s: State)
    requires Init(s)
    ensures LockInv(s)
  {
    CountZero(Joined, s.pc);
    CountZero(Leaving, s.pc);
  }
}
