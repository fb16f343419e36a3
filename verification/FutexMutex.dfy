/**
 The futex mutex of the reader/writer lock: one 32-bit word holding a lock bit and a
 16-bit count of waiters, and any number of threads that run bt_mutexlock and
 bt_releasemutex one atomic operation at a time.
 */
module FutexMutex {
  import opened Counting

  const SPINS := 100           // failed fetch-or attempts before a thread waits
  const WAITERS_MOD := 0x10000 // `waiters` is a 16-bit field and wraps

  datatype Word = Word(xcl: bool, waiters: nat)

  function Incr(n: nat): nat { (n + 1) % WAITERS_MOD }

  function Decr(n: nat): nat { (n + WAITERS_MOD - 1) % WAITERS_MOD }

  /** Where a thread stands inside a call on this mutex; `Out` is outside of every call. */
  datatype Local =
    | Out
    | Spin(idx: nat, waited: bool) // next: fetch-or
    | Register(seen: Word)         // next: fetch-add on waiters
    | WaitCall(seen: Word)         // next: FUTEX_WAIT for the value `seen`
    | Asleep                       // suspended in FUTEX_WAIT
    | Deregister                   // owns the bit, next: fetch-sub on waiters
    | WakeCall                     // released, next: FUTEX_WAKE of one thread

  datatype Mutex = Mutex(word: Word, loc: seq<Local>)

  // ---------- the atomic operations ----------

  /** bt_mutexlock is called. */
  predicate Call(m: Mutex, m': Mutex, t: nat) {
    t < |m.loc| && m.loc[t] == Out && m' == m.(loc := m.loc[t := Spin(0, false)])
  }

  /** The fetch-and of bt_releasemutex, which also decides whether to wake somebody. */
  predicate Release(m: Mutex, m': Mutex, t: nat) {
    && t < |m.loc| && m.loc[t] == Out
    && m' == Mutex(m.word.(xcl := false), m.loc[t := if m.word.waiters != 0 then WakeCall else Out])
  }

  function AfterFetchOr(word: Word, idx: nat, waited: bool): Local {
    if !word.xcl then (if waited then Deregister else Out)
    else if idx + 1 < SPINS then Spin(idx + 1, waited)
    else if waited then WaitCall(word)
    else Register(word)
  }

  /** FUTEX_WAKE wakes one sleeping thread, if there is one. */
  predicate Wakes(loc: seq<Local>, loc': seq<Local>, t: nat) {
    && t < |loc|
    && if forall u | 0 <= u < |loc| :: loc[u] != Asleep
       then loc' == loc[t := Out]
       else exists u: nat | u < |loc| && loc[u] == Asleep :: loc' == loc[u := Spin(0, true)][t := Out]
  }

  /** One more operation of the call that thread `t` is in. */
  predicate Micro(m: Mutex, m': Mutex, t: nat) {
    && t < |m.loc|
    && match m.loc[t]
       case Out => false
       case Spin(idx, waited) =>
         m' == Mutex(m.word.(xcl := true), m.loc[t := AfterFetchOr(m.word, idx, waited)])
       case Register(seen) =>
         m' == Mutex(m.word.(waiters := Incr(m.word.waiters)),
                     m.loc[t := WaitCall(seen.(waiters := Incr(seen.waiters)))])
       case WaitCall(seen) =>
         m' == m.(loc := m.loc[t := if m.word == seen then Asleep else Spin(0, true)])
       case Asleep => // FUTEX_WAIT interrupted by a signal
         m' == m.(loc := m.loc[t := Spin(0, true)])
       case Deregister =>
         m' == Mutex(m.word.(waiters := Decr(m.word.waiters)), m.loc[t := Out])
       case WakeCall =>
         m'.word == m.word && Wakes(m.loc, m'.loc, t)
  }

  // ---------- the invariant ----------

  /** The threads that `waiters` counts. */
  predicate Registered(l: Local) {
    match l
    case Spin(_, waited) => waited
    case WaitCall(_) => true
    case Asleep => true
    case Deregister => true
    case _ => false
  }

  /** A registered thread that will look at the lock bit again by itself. */
  predicate AwakeWaiter(l: Local) {
    (l.Spin? && l.waited) || l.WaitCall?
  }

  ghost predicate SeenLocked(m: Mutex) {
    forall t | 0 <= t < |m.loc| :: (m.loc[t].Register? || m.loc[t].WaitCall?) ==> m.loc[t].seen.xcl
  }

  ghost predicate HasSleeper(m: Mutex) {
    exists t :: 0 <= t < |m.loc| && m.loc[t] == Asleep
  }

  /** No wakeup is lost: if the bit is clear while somebody sleeps, help is on its way. */
  ghost predicate NoLostWakeup(m: Mutex) {
    HasSleeper(m) && !m.word.xcl ==>
      exists t :: 0 <= t < |m.loc| && (m.loc[t].WakeCall? || AwakeWaiter(m.loc[t]))
  }

  ghost predicate CountExact(m: Mutex) {
    m.word.waiters == Count(Registered, m.loc) % WAITERS_MOD
  }

  ghost predicate Inv(m: Mutex) {
    CountExact(m) && SeenLocked(m)
  }

  lemma {:induction false} WrapStep(n: nat)
    ensures Incr(n % WAITERS_MOD) == (n + 1) % WAITERS_MOD
    ensures n > 0 ==> Decr(n % WAITERS_MOD) == (n - 1) % WAITERS_MOD
  {
  }

  /** Every operation of a call moves `waiters` exactly with the number of registered threads. */
  lemma {:induction false} MicroKeepsCount(m: Mutex, m': Mutex, t: nat)
    requires Inv(m) && Micro(m, m', t)
    ensures |m'.loc| == |m.loc| && Inv(m')
  {
    if m.loc[t].WakeCall? {
      WakeKeepsCount(m, m', t);
    } else {
      WrapStep(Count(Registered, m.loc));
      CountUpdate(Registered, m.loc, t, m'.loc[t]);
      assert m'.loc == m.loc[t := m'.loc[t]];
    }
  }

  lemma {:induction false} WakeKeepsCount(m: Mutex, m': Mutex, t: nat)
    requires Inv(m) && Micro(m, m', t) && m.loc[t].WakeCall?
    ensures |m'.loc| == |m.loc| && Inv(m')
  {
    if exists u :: 0 <= u < |m.loc| && m.loc[u] == Asleep {
      var u: nat :| u < |m.loc| && m.loc[u] == Asleep && m'.loc == m.loc[u := Spin(0, true)][t := Out];
      var woken := m.loc[u := Spin(0, true)];
      CountUpdate(Registered, m.loc, u, Spin(0, true));
      assert woken[t].WakeCall?;
      CountUpdate(Registered, woken, t, Out);
      assert Count(Registered, m'.loc) == Count(Registered, m.loc);
    } else {
      CountUpdate(Registered, m.loc, t, Out);
      assert Count(Registered, m'.loc) == Count(Registered, m.loc);
    }
    assert CountExact(m');
  }

  lemma {:induction false} CallKeepsCount(m: Mutex, m': Mutex, t: nat)
    requires Inv(m) && Call(m, m', t)
    ensures |m'.loc| == |m.loc| && Inv(m')
  {
    CountUpdate(Registered, m.loc, t, Spin(0, false));
  }

  lemma {:induction false} ReleaseKeepsCount(m: Mutex, m': Mutex, t: nat)
    requires Inv(m) && Release(m, m', t)
    ensures |m'.loc| == |m.loc| && Inv(m')
  {
    CountUpdate(Registered, m.loc, t, m'.loc[t]);
  }

  /** Every operation of a call keeps the wakeup guarantee. */
  lemma {:induction false} MicroKeepsWakeups(m: Mutex, m': Mutex, t: nat)
    requires Inv(m) && NoLostWakeup(m) && Micro(m, m', t)
    ensures NoLostWakeup(m')
  {
    if HasSleeper(m') && !m'.word.xcl {
      var l := m.loc[t];
      if l.WakeCall? {
        var s :| 0 <= s < |m'.loc| && m'.loc[s] == Asleep;
        assert m.loc[s] == Asleep;
        var u: nat :| u < |m.loc| && m.loc[u] == Asleep && m'.loc == m.loc[u := Spin(0, true)][t := Out];
        assert AwakeWaiter(m'.loc[u]);
      } else if l == Asleep || l.Register? {
        assert AwakeWaiter(m'.loc[t]);
      } else if l.WaitCall? {
        assert AwakeWaiter(m'.loc[t]);
      } else {
        assert l == Deregister;
        var s :| 0 <= s < |m'.loc| && m'.loc[s] == Asleep;
        assert m.loc[s] == Asleep;
        var v :| 0 <= v < |m.loc| && (m.loc[v].WakeCall? || AwakeWaiter(m.loc[v]));
        assert m'.loc[v] == m.loc[v];
      }
    }
  }

  lemma {:induction false} CallKeepsWakeups(m: Mutex, m': Mutex, t: nat)
    requires NoLostWakeup(m) && Call(m, m', t)
    ensures NoLostWakeup(m')
  {
    if HasSleeper(m') && !m'.word.xcl {
      var s :| 0 <= s < |m'.loc| && m'.loc[s] == Asleep;
      assert m.loc[s] == Asleep;
      var v :| 0 <= v < |m.loc| && (m.loc[v].WakeCall? || AwakeWaiter(m.loc[v]));
      assert m'.loc[v] == m.loc[v];
    }
  }

  /** Releasing keeps the guarantee as long as the count of waiters cannot wrap to zero. */
  lemma {:induction false} ReleaseKeepsWakeups(m: Mutex, m': Mutex, t: nat)
    requires Inv(m) && Release(m, m', t) && |m.loc| <= WAITERS_MOD
    ensures NoLostWakeup(m')
  {
    CountFull(Registered, m.loc);
    assert !Registered(m.loc[t]);
    if HasSleeper(m') {
      var s :| 0 <= s < |m'.loc| && m'.loc[s] == Asleep;
      CountZero(Registered, m.loc);
      assert Registered(m.loc[s]);
      assert m'.loc[t].WakeCall?;
    }
  }
}
