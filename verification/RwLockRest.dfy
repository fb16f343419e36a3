/**
 The reader/writer lock gets free again: rwUnlock returns and gives back what it should, and every
 run of at most 65536 threads can go on until nobody uses the lock and it is as it was at first.
 */
module RwLockRest {
  import opened Counting
  import opened FutexMutex
  import opened RwLock
  import opened RwLockRuns

  // ---------- the work that is left ----------

  function Sum<T>(f: T -> nat, s: seq<T>): nat {
    if s == [] then 0 else Sum(f, s[..|s| - 1]) + f(s[|s| - 1])
  }

  lemma {:induction false} SumUpdate<T>(f: T -> nat, s: seq<T>, t: nat, x: T)
    requires t < |s|
    ensures Sum(f, s[t := x]) == Sum(f, s) - f(s[t]) + f(x)
  {
    var last := |s| - 1;
    if t == last {
      assert s[t := x][..last] == s[..last];
    } else {
      assert s[t := x][..last] == s[..last][t := x];
      SumUpdate(f, s[..last], t, x);
    }
  }

  /** More than the operations left in a call on a mutex that is free. */
  function LocalWork(l: Local): nat {
    match l
    case Out => 0
    case WakeCall => 1
    case Deregister => 1
    case Spin(_, _) => 2
    case WaitCall(_) => 3
    case Asleep => 3
    case Register(_) => 4
  }

  /** Every instruction left may call or release a mutex. */
  function PcWork(pc: Pc): nat {
    match pc
    case Idle => 0
    case Rel(_) => 5
    case Sub(_) => 10
    case In(_) => 15
    case WRel => 20
    case RRel => 20
    case WWrt => 25
    case RWrt => 25
    case RType => 25
    case WXcl => 30
    case RXcl => 30
  }

  ghost function Work(s: State): nat { Sum(PcWork, s.pc) + Sum(LocalWork, s.xcl.loc) + Sum(LocalWork, s.wrt.loc) }

  // ---------- a thread that goes on gets on ----------

  /** A call on a mutex that the thread is not held up by comes nearer to its end. */
  lemma {:induction false} CallAdvances(m: Mutex, t: nat) returns (m': Mutex)
    requires t < |m.loc| && SeenLocked(m) && m.loc[t] != Out && !Blocked(m, t)
    ensures Micro(m, m', t) && |m'.loc| == |m.loc| && Sum(LocalWork, m'.loc) < Sum(LocalWork, m.loc)
  {
    var l' := m.loc[t];
    match m.loc[t] {
      case WakeCall =>
        m' := WakeAdvances(m, t);
        return;
      case Spin(idx, waited) =>
        l' := AfterFetchOr(m.word, idx, waited);
        m' := Mutex(m.word.(xcl := true), m.loc[t := l']);
      case Register(seen) =>
        l' := WaitCall(seen.(waiters := Incr(seen.waiters)));
        m' := Mutex(m.word.(waiters := Incr(m.word.waiters)), m.loc[t := l']);
      case WaitCall(seen) =>
        l' := Spin(0, true);
        m' := m.(loc := m.loc[t := l']);
      case Deregister =>
        l' := Out;
        m' := Mutex(m.word.(waiters := Decr(m.word.waiters)), m.loc[t := Out]);
    }
    SumUpdate(LocalWork, m.loc, t, l');
  }

  lemma {:induction false} WakeAdvances(m: Mutex, t: nat) returns (m': Mutex)
    requires t < |m.loc| && m.loc[t] == WakeCall
    ensures Micro(m, m', t) && |m'.loc| == |m.loc| && Sum(LocalWork, m'.loc) < Sum(LocalWork, m.loc)
    ensures m'.word == m.word && m'.loc[t] == Out
  {
    if exists u: nat :: u < |m.loc| && m.loc[u] == Asleep {
      var u: nat :| u < |m.loc| && m.loc[u] == Asleep;
      var woken := m.loc[u := Spin(0, true)];
      m' := m.(loc := woken[t := Out]);
      SumUpdate(LocalWork, m.loc, u, Spin(0, true));
      SumUpdate(LocalWork, woken, t, Out);
    } else {
      m' := m.(loc := m.loc[t := Out]);
      SumUpdate(LocalWork, m.loc, t, Out);
    }
  }

  ghost predicate Ready(s: State, t: nat)
    requires Shape(s)
  {
    t < |s.pc| && s.xcl.loc[t] == Out && s.wrt.loc[t] == Out
  }

  /** What the next instruction of a thread makes of the state, a thread outside of the lock aside. */
  ghost function AfterInstr(s: State, t: nat): State
    requires Shape(s) && Ready(s, t) && s.pc[t] != Idle
  {
    var call := Spin(0, false);
    var wake := (m: Mutex) => if m.word.waiters != 0 then WakeCall else Out;
    var xclFree := Mutex(s.xcl.word.(xcl := false), s.xcl.loc[t := wake(s.xcl)]);
    match s.pc[t]
    case Idle => s
    case WXcl => s.(wrt := s.wrt.(loc := s.wrt.loc[t := call]), pc := s.pc[t := WWrt])
    case WWrt => s.(typ := 1, pc := s.pc[t := WRel])
    case WRel => s.(xcl := xclFree, pc := s.pc[t := In(Writer)])
    case RXcl =>
      var added := (s.readers + 1) % READERS_MOD;
      if s.readers == 0 then s.(wrt := s.wrt.(loc := s.wrt.loc[t := call]), readers := added, pc := s.pc[t := RWrt])
      else s.(readers := added, pc := s.pc[t := RType])
    case RWrt => s.(typ := 0, pc := s.pc[t := RRel])
    case RType => s.(typ := 0, pc := s.pc[t := RRel])
    case RRel => s.(xcl := xclFree, pc := s.pc[t := In(Reader)])
    case In(role) => s.(pc := s.pc[t := if s.typ != 0 then Rel(role) else Sub(role)])
    case Sub(role) =>
      s.(readers := (s.readers + READERS_MOD - 1) % READERS_MOD,
         pc := s.pc[t := if s.readers == 1 then Rel(role) else Idle])
    case Rel(_) =>
      s.(wrt := Mutex(s.wrt.word.(xcl := false), s.wrt.loc[t := wake(s.wrt)]), pc := s.pc[t := Idle])
  }

  lemma {:induction false} InstrAdvances(s: State, t: nat)
    requires Shape(s) && Ready(s, t) && s.pc[t] != Idle
    ensures var s' := AfterInstr(s, t); Shape(s') && Instr(s, s', t) && Work(s') < Work(s)
  {
    var s' := AfterInstr(s, t);
    InstrWork(s, t);
    SumUpdate(PcWork, s.pc, t, s'.pc[t]);
    SumUpdate(LocalWork, s.xcl.loc, t, s'.xcl.loc[t]);
    SumUpdate(LocalWork, s.wrt.loc, t, s'.wrt.loc[t]);
  }

  lemma {:induction false} InstrWork(s: State, t: nat)
    requires Shape(s) && Ready(s, t) && s.pc[t] != Idle
    ensures var s' := AfterInstr(s, t);
            && Shape(s') && Instr(s, s', t) && s'.pc == s.pc[t := s'.pc[t]]
            && s'.xcl.loc == s.xcl.loc[t := s'.xcl.loc[t]] && s'.wrt.loc == s.wrt.loc[t := s'.wrt.loc[t]]
            && PcWork(s'.pc[t]) + LocalWork(s'.xcl.loc[t]) + LocalWork(s'.wrt.loc[t]) < PcWork(s.pc[t])
  {
  }

  /** As long as somebody uses the lock, some thread can take a step that leaves less work. */
  lemma {:induction false} SomeoneAdvances(s: State, t: nat) returns (s': State, u: nat)
    requires LockInv(s) && Wakeful(s) && t < |s.pc| && Busy(s, t)
    ensures Shape(s') && StepBy(s, s', u) && Work(s') < Work(s)
  {
    hide WrtExact, ReadersExact, TypeExact, XclExact, CallsExact, Instr, Micro, Blocked;
    u := SomeoneGoesOn(s, t);
    if s.xcl.loc[u] != Out {
      var m' := CallAdvances(s.xcl, u);
      s' := s.(xcl := m');
    } else if s.wrt.loc[u] != Out {
      var m' := CallAdvances(s.wrt, u);
      s' := s.(wrt := m');
    } else {
      InstrAdvances(s, u);
      s' := AfterInstr(s, u);
    }
  }

  // ---------- every run can come to rest ----------

  /** Nobody uses the lock, and it is free: as at the start, up to the type byte. */
  ghost predicate AtRest(s: State) {
    && Shape(s) && s.xcl.word == Word(false, 0) && s.wrt.word == Word(false, 0) && s.readers == 0
    && forall t | 0 <= t < |s.pc| :: s.pc[t] == Idle && s.xcl.loc[t] == Out && s.wrt.loc[t] == Out
  }

  lemma {:induction false} LongerRun(r: seq<State>, s': State, t: nat)
    requires Run(r) && Shape(s') && StepBy(r[|r| - 1], s', t)
    ensures Run(r + [s'])
  {
    hide StepBy;
    var r' := r + [s'];
    forall i | 0 <= i < |r'| - 1 ensures Step(r'[i], r'[i + 1]) {
      if i < |r| - 1 { assert Step(r[i], r[i + 1]); }
    }
  }

  lemma {:induction false} NobodyThere(s: State)
    requires LockInv(s) && Wakeful(s) && forall t: nat | t < |s.pc| :: !Busy(s, t)
    ensures AtRest(s)
  {
    CountZero(Joined, s.pc);
    CountZero(Leaving, s.pc);
    CountZero(Registered, s.xcl.loc);
    CountZero(Registered, s.wrt.loc);
    forall t: nat | t < |s.pc| ensures s.pc[t] == Idle && s.xcl.loc[t] == Out && s.wrt.loc[t] == Out {
      assert !Busy(s, t);
    }
  }

  /** From every state that at most 65536 threads can reach, they can go on until the lock is at rest. */
  lemma {:induction false} ComesToRest(r: seq<State>) returns (r': seq<State>)
    requires Run(r) && |r[0].pc| <= WAITERS_MOD
    ensures Run(r') && r <= r' && AtRest(r'[|r'| - 1])
    decreases Work(r[|r| - 1])
  {
    hide LockInv, Wakeful, StepBy, Init, Work, AtRest, Busy;
    var s := r[|r| - 1];
    RunKeepsLockInv(r, |r| - 1);
    RunKeepsWakeful(r, |r| - 1);
    ShapeOf(s);
    if exists t: nat :: t < |s.pc| && Busy(s, t) {
      var t: nat :| t < |s.pc| && Busy(s, t);
      var s', u := SomeoneAdvances(s, t);
      LongerRun(r, s', u);
      r' := ComesToRest(r + [s']);
    } else {
      NobodyThere(s);
      r' := r;
    }
  }

  lemma {:induction false} ShapeOf(s: State)
    requires LockInv(s)
    ensures Shape(s)
  {
  }

  // ---------- rwUnlock returns ----------

  /** The run goes on by steps of thread `t` alone, and no other thread is further than it was. */
  ghost predicate GoesOnBy(r: seq<State>, r': seq<State>, t: nat) {
    && Run(r) && Run(r') && r <= r'
    && (forall i | |r| - 1 <= i < |r'| - 1 :: StepBy(r'[i], r'[i + 1], t))
    && var s, s' := r[|r| - 1], r'[|r'| - 1];
       |s'.pc| == |s.pc| && forall u | 0 <= u < |s.pc| && u != t :: s'.pc[u] == s.pc[u]
  }

  lemma {:induction false} OneStepBy(r: seq<State>, r': seq<State>, s': State, t: nat)
    requires GoesOnBy(r, r', t) && Shape(s') && StepBy(r'[|r'| - 1], s', t)
    requires var s := r'[|r'| - 1]; |s'.pc| == |s.pc| && forall u | 0 <= u < |s.pc| && u != t :: s'.pc[u] == s.pc[u]
    ensures GoesOnBy(r, r' + [s'], t)
  {
    hide StepBy;
    LongerRun(r', s', t);
    hide Run;
    var r'' := r' + [s'];
    forall i: nat | |r| - 1 <= i < |r''| - 1 ensures Shape(r''[i]) && StepBy(r''[i], r''[i + 1], t) {
      RunShape(r'', i);
      if i < |r'| - 1 { assert r''[i] == r'[i] && r''[i + 1] == r'[i + 1]; }
    }
  }

  lemma {:induction false} RunShape(r: seq<State>, i: nat)
    requires Run(r) && i < |r|
    ensures Shape(r[i])
  {
  }

  /** Only the pending wake calls of thread `t` are gone. */
  ghost predicate Settled(s: State, s': State, t: nat) {
    && Shape(s) && Shape(s') && Ready(s', t) && t < |s.pc| && |s'.pc| == |s.pc| && s'.pc[t] == s.pc[t]
    && s'.typ == s.typ && s'.readers == s.readers && s'.wrt.word == s.wrt.word
  }

  /** A thread that has only wake calls pending gets through them. */
  lemma {:induction false} Settle(r: seq<State>, r0: seq<State>, t: nat) returns (r': seq<State>)
    requires GoesOnBy(r, r0, t) && |r0| > 0
    requires var s := r0[|r0| - 1];
             && Shape(s) && t < |s.pc| && (s.xcl.loc[t] == Out || s.xcl.loc[t] == WakeCall)
             && (s.wrt.loc[t] == Out || s.wrt.loc[t] == WakeCall)
    ensures GoesOnBy(r, r', t) && |r'| > 0 && Settled(r0[|r0| - 1], r'[|r'| - 1], t)
  {
    hide GoesOnBy, Instr, Micro;
    r' := r0;
    var s := r0[|r0| - 1];
    if s.xcl.loc[t] == WakeCall {
      var m' := WakeAdvances(s.xcl, t);
      var s1 := s.(xcl := m');
      OneStepBy(r, r', s1, t);
      r' := r' + [s1];
      s := s1;
    }
    if s.wrt.loc[t] == WakeCall {
      var m' := WakeAdvances(s.wrt, t);
      var s1 := s.(wrt := m');
      OneStepBy(r, r', s1, t);
      r' := r' + [s1];
    }
  }

  /** One instruction of thread `t`. */
  lemma {:induction false} OneInstr(r: seq<State>, r0: seq<State>, t: nat) returns (r': seq<State>)
    requires GoesOnBy(r, r0, t) && |r0| > 0
    requires var s := r0[|r0| - 1]; Shape(s) && Ready(s, t) && s.pc[t] != Idle
    ensures GoesOnBy(r, r', t) && |r'| > 0 && r'[|r'| - 1] == AfterInstr(r0[|r0| - 1], t) && Shape(r'[|r'| - 1])
  {
    hide GoesOnBy;
    var s := r0[|r0| - 1];
    InstrWork(s, t);
    hide Instr, AfterInstr;
    OneStepBy(r, r0, AfterInstr(s, t), t);
    r' := r0 + [AfterInstr(s, t)];
  }

  /** A reader inside holds `wrt` together with its group. */
  lemma {:induction false} GroupHasWrt(s: State, t: nat)
    requires LockInv(s) && WaitsAlone(s) && t < |s.pc| && s.pc[t] == In(Reader)
    ensures s.wrt.word.xcl
  {
    CountZero(Joined, s.pc);
    if Waiting(s) {
      var u :| 0 <= u < |s.pc| && WaitsWrt(s, u);
      CountTwo(Joined, s.pc, t, u, Idle);
    }
  }

  /** The last reader to leave is the one that reads a count of one. */
  lemma {:induction false} LastMember(s: State, t: nat)
    requires LockInv(s) && WaitsAlone(s) && t < |s.pc| && s.pc[t] == In(Reader) && |s.pc| <= READERS_MOD
    ensures s.readers == 1 <==> Members(s) == 1
  {
    CountZero(Joined, s.pc);
  }

  lemma {:induction false} InsideQuiet(s: State, t: nat)
    requires LockInv(s) && t < |s.pc| && s.pc[t].In?
    ensures Shape(s) && (s.xcl.loc[t] == Out || s.xcl.loc[t] == WakeCall)
    ensures s.wrt.loc[t] == Out || s.wrt.loc[t] == WakeCall
    ensures s.typ == if s.pc[t] == In(Writer) then 1 else 0
  {
    hide XclExact, WrtExact, ReadersExact;
    match s.pc[t].role case Writer => case Reader =>
  }

  lemma {:induction false} NoSteps(r: seq<State>, t: nat)
    requires Run(r)
    ensures GoesOnBy(r, r, t) && |r| > 0
  {
  }

  /** From the release of `wrt` on. */
  lemma {:induction false} ReleaseReturns(r: seq<State>, r0: seq<State>, t: nat) returns (r': seq<State>)
    requires GoesOnBy(r, r0, t) && |r0| > 0
    requires var s := r0[|r0| - 1]; Shape(s) && Ready(s, t) && s.pc[t].Rel?
    ensures GoesOnBy(r, r', t) && |r'| > 0
    ensures var s, s' := r0[|r0| - 1], r'[|r'| - 1];
            Shape(s') && Ready(s', t) && s'.pc[t] == Idle && !s'.wrt.word.xcl && s'.readers == s.readers
  {
    hide GoesOnBy, Instr;
    var r1 := OneInstr(r, r0, t);
    r' := Settle(r, r1, t);
  }

  /** The thread is out of rwUnlock; `wrt` is free if it was the writer or the last reader, else still held. */
  ghost predicate Unlocked(s: State, s': State, t: nat)
    requires Shape(s) && t < |s.pc|
  {
    && Shape(s') && Ready(s', t) && s'.pc[t] == Idle
    && (!s'.wrt.word.xcl <==> s.pc[t] == In(Writer) || Members(s) == 1)
  }

  /** With at most 65536 threads rwUnlock returns by steps of its own thread alone, whatever the others do not do. */
  lemma {:induction false} UnlockReturns(r: seq<State>, t: nat) returns (r': seq<State>)
    requires Run(r) && |r[0].pc| <= READERS_MOD && t < |r[|r| - 1].pc| && r[|r| - 1].pc[t].In?
    ensures GoesOnBy(r, r', t) && Shape(r[|r| - 1]) && Unlocked(r[|r| - 1], r'[|r'| - 1], t)
  {
    hide GoesOnBy, Instr, LockInv, Run, Members, WaitsAlone;
    NoSteps(r, t);
    var s := r[|r| - 1];
    RunKeepsLockInv(r, |r| - 1);
    RunKeepsWaitsAlone(r, |r| - 1);
    InsideQuiet(s, t);
    var r1 := Settle(r, r, t);
    var r2 := OneInstr(r, r1, t);
    if s.pc[t] == In(Writer) {
      r' := ReleaseReturns(r, r2, t);
    } else {
      assert s.pc[t] == In(Reader) by { match s.pc[t].role case Writer => case Reader => }
      GroupHasWrt(s, t);
      LastMember(s, t);
      var r3 := OneInstr(r, r2, t);
      r' := r3;
      if s.readers == 1 { r' := ReleaseReturns(r, r3, t); }
    }
  }
}
