/** The lock that serialises work on one logical record (`keyedMutex` in internal/engine/queue.go),
    under any number of threads. Taking and releasing it are two atomic steps each: the registry
    section, guarded by the registry's own mutex, and the operation on the record's mutex. */
module KeyedMutex {

  /** Mutexes are numbered in the order they are made; `next` has not been handed out yet. */
  datatype Registry = Registry(held: map<string, nat>, count: map<string, nat>, next: nat)

  function MutexFor(r: Registry, key: string): nat { if key in r.held then r.held[key] else r.next }

  function Counted(r: Registry, key: string): nat { if key in r.count then r.count[key] else 0 }

  function Registered(r: Registry, key: string): Registry
  {
    Registry(
      r.held[key := MutexFor(r, key)],
      r.count[key := Counted(r, key) + 1],
      if key in r.held then r.next else r.next + 1)
  }

  function Unregistered(r: Registry, key: string): Registry
  {
    if Counted(r, key) <= 1 then r.(held := r.held - {key}, count := r.count - {key})
    else r.(count := r.count[key := Counted(r, key) - 1])
  }

  class Locks {
    var held: map<string, nat>
    var count: map<string, nat>
    var next: nat

    constructor ()
      ensures State() == Registry(map[], map[], 0)
    {
      held, count, next := map[], map[], 0;
    }

    ghost function State(): Registry
      reads this
    {
      Registry(held, count, next)
    }

    /** The registry section of `lock`. */
    method Register(key: string) returns (m: nat)
      modifies this
      ensures m == MutexFor(old(State()), key)
      ensures State() == Registered(old(State()), key)
    {
      if key in held {
        m := held[key];
      } else {
        m := next;
        next := next + 1;
        held := held[key := m];
      }
      count := count[key := (if key in count then count[key] else 0) + 1];
    }

    /** The registry section of the release function. */
    method Unregister(key: string)
      requires key in count && count[key] > 0
      modifies this
      ensures State() == Unregistered(old(State()), key)
    {
      count := count[key := count[key] - 1];
      if count[key] == 0 {
        held := held - {key};
        count := count - {key};
      }
    }
  }

  // ---- threads ---------------------------------------------------------------------------------

  datatype Thread =
    | Out
    | Waiting(key: string, m: nat)
    | Holding(key: string, m: nat)
    | Releasing(key: string, m: nat)

  datatype State = State(registry: Registry, locked: set<nat>, threads: map<nat, Thread>)

  datatype Step = Enter(t: nat, key: string) | Acquire(t: nat) | Unlock(t: nat) | Leave(t: nat)

  const Initial := State(Registry(map[], map[], 0), {}, map[])

  function ThreadOf(s: State, t: nat): Thread { if t in s.threads then s.threads[t] else Out }

  predicate Enabled(s: State, step: Step)
  {
    match step
    case Enter(t, _) => ThreadOf(s, t).Out?
    case Acquire(t) => ThreadOf(s, t).Waiting? && ThreadOf(s, t).m !in s.locked
    case Unlock(t) => ThreadOf(s, t).Holding?
    case Leave(t) => ThreadOf(s, t).Releasing?
  }

  function Next(s: State, step: Step): State
    requires Enabled(s, step)
  {
    match step
    case Enter(t, key) =>
      s.(registry := Registered(s.registry, key), threads := s.threads[t := Waiting(key, MutexFor(s.registry, key))])
    case Acquire(t) =>
      var th := s.threads[t];
      s.(locked := s.locked + {th.m}, threads := s.threads[t := Holding(th.key, th.m)])
    case Unlock(t) =>
      var th := s.threads[t];
      s.(locked := s.locked - {th.m}, threads := s.threads[t := Releasing(th.key, th.m)])
    case Leave(t) =>
      s.(registry := Unregistered(s.registry, s.threads[t].key), threads := s.threads[t := Out])
  }

  /** Threads waiting for, holding or releasing a key. */
  function Users(threads: map<nat, Thread>, key: string): set<nat>
  {
    set t | t in threads && !threads[t].Out? && threads[t].key == key
  }

  predicate Uses(threads: map<nat, Thread>, t: nat, key: string)
  {
    t in threads && !threads[t].Out? && threads[t].key == key
  }

  ghost predicate CountsOk(r: Registry, threads: map<nat, Thread>)
  {
    forall key :: Counted(r, key) == |Users(threads, key)|
  }

  /** Every thread concerned with a key refers to the one mutex registered for it. */
  ghost predicate MutexesOk(r: Registry, threads: map<nat, Thread>)
  {
    && (forall key :: key in r.held <==> key in r.count)
    && (forall key :: key in r.count ==> r.count[key] > 0)
    && (forall key :: key in r.held ==> r.held[key] < r.next)
    && (forall k, k' :: k in r.held && k' in r.held && r.held[k] == r.held[k'] ==> k == k')
    && (forall t :: t in threads && !threads[t].Out? ==>
          threads[t].key in r.held && r.held[threads[t].key] == threads[t].m)
  }

  /** A locked mutex has exactly one holder. */
  ghost predicate HoldersOk(locked: set<nat>, threads: map<nat, Thread>)
  {
    && (forall t :: t in threads && threads[t].Holding? ==> threads[t].m in locked)
    && (forall t, t' :: Both(threads, t, t') && threads[t].m == threads[t'].m ==> t == t')
    && (forall m :: m in locked ==> Held(threads, m))
  }

  predicate Both(threads: map<nat, Thread>, t: nat, t': nat)
  {
    t in threads && t' in threads && threads[t].Holding? && threads[t'].Holding?
  }

  ghost predicate Held(threads: map<nat, Thread>, m: nat)
  {
    exists t :: t in threads && threads[t].Holding? && threads[t].m == m
  }

  ghost predicate Inv(s: State)
  {
    CountsOk(s.registry, s.threads) && MutexesOk(s.registry, s.threads) && HoldersOk(s.locked, s.threads)
  }

  /** How many users a key gains when one thread moves. */
  function Change(threads: map<nat, Thread>, t: nat, th: Thread, key: string): int
  {
    (if Uses(threads[t := th], t, key) then 1 else 0) - (if Uses(threads, t, key) then 1 else 0)
  }

  lemma UsersAfter(threads: map<nat, Thread>, t: nat, th: Thread, key: string)
    ensures |Users(threads[t := th], key)| == |Users(threads, key)| + Change(threads, t, th, key)
  {
    var before, after := Users(threads, key), Users(threads[t := th], key);
    assert before - {t} == after - {t} by {
      forall u: nat | u != t ensures u in before <==> u in after { OthersStay(threads, t, th, key, u); }
    }
    SizeWithout(before, t);
    SizeWithout(after, t);
    assert t in before <==> Uses(threads, t, key);
    assert t in after <==> Uses(threads[t := th], t, key);
  }

  lemma OthersStay(threads: map<nat, Thread>, t: nat, th: Thread, key: string, u: nat)
    requires u != t
    ensures u in Users(threads[t := th], key) <==> u in Users(threads, key)
  {}

  lemma SizeWithout(s: set<nat>, x: nat)
    ensures |s - {x}| == if x in s then |s| - 1 else |s|
  {}

  lemma CountsAfter(r: Registry, r': Registry, threads: map<nat, Thread>, t: nat, th: Thread)
    requires CountsOk(r, threads)
    requires forall key :: Counted(r', key) == Counted(r, key) + Change(threads, t, th, key)
    ensures CountsOk(r', threads[t := th])
  {
    forall key: string ensures Counted(r', key) == |Users(threads[t := th], key)| { UsersAfter(threads, t, th, key); }
  }

  /** A thread that neither held nor holds a mutex does not matter to the holders. */
  lemma HoldersAfter(locked: set<nat>, threads: map<nat, Thread>, t: nat, th: Thread)
    requires HoldersOk(locked, threads) && !th.Holding? && !(t in threads && threads[t].Holding?)
    ensures HoldersOk(locked, threads[t := th])
  {
    forall m | m in locked ensures Held(threads[t := th], m) { HeldAfter(threads, t, th, m); }
    assert forall u, u' :: Both(threads[t := th], u, u') ==> Both(threads, u, u');
  }

  lemma HeldAfter(threads: map<nat, Thread>, t: nat, th: Thread, m: nat)
    requires Held(threads, m) && !(t in threads && threads[t].Holding? && threads[t].m == m)
    ensures Held(threads[t := th], m)
  {
    var u :| u in threads && threads[u].Holding? && threads[u].m == m;
    assert threads[t := th][u] == threads[u];
  }

  lemma EnterKeepsInv(s: State, t: nat, key: string)
    requires Inv(s) && ThreadOf(s, t).Out?
    ensures Inv(Next(s, Enter(t, key)))
  {
    var th := Waiting(key, MutexFor(s.registry, key));
    CountsAfter(s.registry, Registered(s.registry, key), s.threads, t, th);
    HoldersAfter(s.locked, s.threads, t, th);
    EnterKeepsMutexes(s.registry, s.threads, t, key);
  }

  lemma EnterKeepsMutexes(r: Registry, threads: map<nat, Thread>, t: nat, key: string)
    requires MutexesOk(r, threads) && (t in threads ==> threads[t].Out?)
    ensures MutexesOk(Registered(r, key), threads[t := Waiting(key, MutexFor(r, key))])
  {}

  lemma AcquireKeepsInv(s: State, t: nat)
    requires Inv(s) && Enabled(s, Acquire(t))
    ensures Inv(Next(s, Acquire(t)))
  {
    var th := s.threads[t];
    CountsAfter(s.registry, s.registry, s.threads, t, Holding(th.key, th.m));
    AcquireKeepsHolders(s.locked, s.threads, t);
  }

  lemma AcquireKeepsHolders(locked: set<nat>, threads: map<nat, Thread>, t: nat)
    requires HoldersOk(locked, threads) && t in threads && threads[t].Waiting? && threads[t].m !in locked
    ensures HoldersOk(locked + {threads[t].m}, threads[t := Holding(threads[t].key, threads[t].m)])
  {
    var threads' := threads[t := Holding(threads[t].key, threads[t].m)];
    forall m | m in locked ensures Held(threads', m) { HeldAfter(threads, t, threads'[t], m); }
    assert Held(threads', threads[t].m) by { assert threads'[t].m == threads[t].m; }
    assert forall u, u' :: Both(threads', u, u') && u != t && u' != t ==> Both(threads, u, u');
  }

  lemma UnlockKeepsInv(s: State, t: nat)
    requires Inv(s) && Enabled(s, Unlock(t))
    ensures Inv(Next(s, Unlock(t)))
  {
    var th := s.threads[t];
    CountsAfter(s.registry, s.registry, s.threads, t, Releasing(th.key, th.m));
    UnlockKeepsHolders(s.locked, s.threads, t);
  }

  lemma UnlockKeepsHolders(locked: set<nat>, threads: map<nat, Thread>, t: nat)
    requires HoldersOk(locked, threads) && t in threads && threads[t].Holding?
    ensures HoldersOk(locked - {threads[t].m}, threads[t := Releasing(threads[t].key, threads[t].m)])
  {
    var threads' := threads[t := Releasing(threads[t].key, threads[t].m)];
    forall m | m in locked - {threads[t].m} ensures Held(threads', m) { HeldAfter(threads, t, threads'[t], m); }
    assert forall u, u' :: Both(threads', u, u') ==> Both(threads, u, u');
    assert forall u :: u in threads && threads[u].Holding? && u != t ==> Both(threads, u, t);
  }

  lemma LeaveKeepsInv(s: State, t: nat)
    requires Inv(s) && Enabled(s, Leave(t))
    ensures Inv(Next(s, Leave(t)))
  {
    var key := s.threads[t].key;
    CountsAfter(s.registry, Unregistered(s.registry, key), s.threads, t, Out);
    HoldersAfter(s.locked, s.threads, t, Out);
    LeaveKeepsMutexes(s.registry, s.threads, t);
  }

  lemma LeaveKeepsMutexes(r: Registry, threads: map<nat, Thread>, t: nat)
    requires MutexesOk(r, threads) && CountsOk(r, threads) && t in threads && threads[t].Releasing?
    ensures MutexesOk(Unregistered(r, threads[t].key), threads[t := Out])
  {
    var key := threads[t].key;
    forall u | u in threads && u != t && !threads[u].Out? && threads[u].key == key
      ensures Counted(r, key) > 1
    {
      AtLeastTwo(Users(threads, key), t, u);
    }
  }

  lemma AtLeastTwo(s: set<nat>, x: nat, y: nat)
    requires x in s && y in s && x != y
    ensures |s| > 1
  {
    SizeWithout(s, x);
    SizeWithout(s - {x}, y);
  }

  ghost predicate IsRun(s: State, steps: seq<Step>)
    decreases steps
  {
    |steps| > 0 ==> Enabled(s, steps[0]) && IsRun(Next(s, steps[0]), steps[1..])
  }

  ghost function Run(s: State, steps: seq<Step>): State
    requires IsRun(s, steps)
    decreases steps
  {
    if |steps| == 0 then s else Run(Next(s, steps[0]), steps[1..])
  }

  lemma {:induction false} RunKeepsInv(s: State, steps: seq<Step>)
    requires Inv(s) && IsRun(s, steps)
    ensures Inv(Run(s, steps))
    decreases steps
  {
    if |steps| > 0 {
      match steps[0] {
        case Enter(t, key) => EnterKeepsInv(s, t, key);
        case Acquire(t) => AcquireKeepsInv(s, t);
        case Unlock(t) => UnlockKeepsInv(s, t);
        case Leave(t) => LeaveKeepsInv(s, t);
      }
      RunKeepsInv(Next(s, steps[0]), steps[1..]);
    }
  }

  /** Mutual exclusion and cleanliness: after any interleaving of any number of threads, two threads
      never hold the same key, a key's count is the number of threads concerned with it, and once
      every thread is out both maps are empty. */
  lemma LockIsExclusiveAndLeavesNothing(steps: seq<Step>, t: nat, t': nat, key: string)
    requires IsRun(Initial, steps)
    ensures
      var s := Run(Initial, steps);
      && (ThreadOf(s, t).Holding? && ThreadOf(s, t').Holding? && ThreadOf(s, t).key == ThreadOf(s, t').key ==> t == t')
      && Counted(s.registry, key) == |Users(s.threads, key)|
      && ((forall u :: u in s.threads ==> s.threads[u].Out?) ==> s.registry.held == map[] && s.registry.count == map[])
  {
    InitialInv();
    RunKeepsInv(Initial, steps);
    var s := Run(Initial, steps);
    if ThreadOf(s, t).Holding? && ThreadOf(s, t').Holding? { assert Both(s.threads, t, t'); }
    if forall u :: u in s.threads ==> s.threads[u].Out? {
      forall k: string ensures k !in s.registry.count { assert Users(s.threads, k) == {}; }
    }
  }

  /** And nobody waits for nothing: after any interleaving, a thread waiting for a key that no thread holds can
      take it. */
  lemma FreeKeyCanBeTaken(steps: seq<Step>, t: nat)
    requires IsRun(Initial, steps) && ThreadOf(Run(Initial, steps), t).Waiting?
    ensures
      var s := Run(Initial, steps);
      Enabled(s, Acquire(t)) <==> forall u :: ThreadOf(s, u).Holding? ==> ThreadOf(s, u).key != ThreadOf(s, t).key
  {
    InitialInv();
    RunKeepsInv(Initial, steps);
    var s := Run(Initial, steps);
    if ThreadOf(s, t).m in s.locked {
      assert Held(s.threads, ThreadOf(s, t).m);
      var u :| u in s.threads && s.threads[u].Holding? && s.threads[u].m == ThreadOf(s, t).m;
      assert ThreadOf(s, u) == s.threads[u];
    }
  }

  lemma InitialInv()
    ensures Inv(Initial)
  {}
}
