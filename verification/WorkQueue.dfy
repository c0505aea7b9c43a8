/** The in-process queue and the workers that drain it (`workQueue` in internal/engine/queue.go; `Submit`,
    `Drain`, `runTask` and `backoff` in internal/engine/run.go). Time is in milliseconds. */
module WorkQueue {

  datatype Task = Task(id: nat, attempts: nat, notBefore: int)

  /** What processing a task once came to; `wait` is the backoff a retry would take. */
  datatype Outcome = Succeeded | Failed(retryable: bool, wait: nat)

  /** `released` are the tasks whose handle has been closed, `succeeded` and `dead` how those ended
      (dead letters in order), `runs` how often each task has been processed. */
  datatype State = State(
    ready: seq<Task>, delayed: seq<Task>, depth: int, closed: bool, running: map<nat, Task>,
    released: set<nat>, succeeded: set<nat>, dead: seq<nat>, runs: map<nat, nat>)

  const Initial := State([], [], 0, false, map[], {}, {}, [], map[])

  // ---- queue operations ----------------------------------------------------------------------------

  /** How many tasks at the front of the delayed list are due. */
  function DueCount(delayed: seq<Task>, now: int): (n: nat)
    ensures n <= |delayed|
  {
    if |delayed| == 0 || delayed[0].notBefore > now then 0 else 1 + DueCount(delayed[1..], now)
  }

  /** A stable sort of an ordered list with one task appended is an insertion after its equals. */
  function InsertByTime(delayed: seq<Task>, t: Task): seq<Task>
  {
    if |delayed| == 0 || t.notBefore < delayed[0].notBefore then [t] + delayed
    else [delayed[0]] + InsertByTime(delayed[1..], t)
  }

  function Submitted(s: State, id: nat): State
  {
    if s.closed then s.(released := s.released + {id}, runs := s.runs[id := 0])
    else s.(ready := s.ready + [Task(id, 0, 0)], depth := s.depth + 1, runs := s.runs[id := 0])
  }

  function Promoted(s: State, now: int): State
  {
    var n := DueCount(s.delayed, now);
    s.(ready := s.ready + s.delayed[..n], delayed := s.delayed[n..])
  }

  function Started(s: State): State
    requires |s.ready| > 0
  {
    var t := s.ready[0];
    s.(ready := s.ready[1..], running := s.running[t.id := t],
       runs := s.runs[t.id := (if t.id in s.runs then s.runs[t.id] else 0) + 1])
  }

  function Completed(s: State, id: nat): State
  {
    s.(running := s.running - {id}, released := s.released + {id}, depth := s.depth - 1)
  }

  function Requeued(s: State, t: Task): State
  {
    if s.closed then s.(running := s.running - {t.id}, released := s.released + {t.id})
    else s.(running := s.running - {t.id}, delayed := InsertByTime(s.delayed, t))
  }

  predicate Retries(t: Task, o: Outcome, maxAttempts: nat)
  {
    o.Failed? && o.retryable && t.attempts + 1 < maxAttempts
  }

  function Finished(s: State, t: Task, o: Outcome, now: int, maxAttempts: nat): State
  {
    if o.Succeeded? then Completed(s, t.id).(succeeded := s.succeeded + {t.id})
    else if Retries(t, o, maxAttempts) then Requeued(s, Task(t.id, t.attempts + 1, now + o.wait))
    else Completed(s, t.id).(dead := s.dead + [t.id])
  }

  /** A failure after `attempts` others that leaves nothing to try. */
  predicate LastFailure(o: Outcome, attempts: nat, maxAttempts: nat)
  {
    o.Failed? && (o.retryable ==> attempts + 1 >= maxAttempts)
  }

  /** The longest waiting ready task is taken, or if none is ready the retry due first, if one is due. */
  lemma OldestIsTaken(s: State, now: int)
    ensures s.ready != [] ==> Promoted(s, now).ready[0] == s.ready[0] && s.ready <= Promoted(s, now).ready
    ensures s.ready == [] && s.delayed != [] && s.delayed[0].notBefore <= now ==>
      |Promoted(s, now).ready| > 0 && Promoted(s, now).ready[0] == s.delayed[0]
    ensures s.ready == [] && (s.delayed == [] || s.delayed[0].notBefore > now) ==> Promoted(s, now).ready == []
    ensures Promoted(s, now).ready != [] ==>
      var t, s' := Promoted(s, now).ready[0], Started(Promoted(s, now));
      t.id in s'.running && s'.running[t.id] == t && [t] + s'.ready == Promoted(s, now).ready
  {}

  /** A failed task that may be tried again waits out its backoff, still counted in the depth and its handle still
      open. */
  lemma RetryMeans(s: State, t: Task, o: Outcome, now: int, maxAttempts: nat)
    requires o.Failed? && o.retryable && t.attempts + 1 < maxAttempts && !s.closed
    ensures
      var s' := Finished(s, t, o, now, maxAttempts);
      && s' == s.(running := s.running - {t.id}, delayed := s'.delayed)
      && multiset(s'.delayed) == multiset(s.delayed) + multiset{Task(t.id, t.attempts + 1, now + o.wait)}
  {
    InsertAdds(s.delayed, Task(t.id, t.attempts + 1, now + o.wait));
  }

  /** Any other is over, as a success, as a dead letter, or because the queue has closed. */
  lemma EndMeans(s: State, t: Task, o: Outcome, now: int, maxAttempts: nat)
    requires !(o.Failed? && o.retryable && t.attempts + 1 < maxAttempts && !s.closed)
    ensures
      var s' := Finished(s, t, o, now, maxAttempts);
      && s'.delayed == s.delayed && s'.ready == s.ready && s'.runs == s.runs
      && s'.running == s.running - {t.id} && s'.released == s.released + {t.id}
      && s'.succeeded == (if o == Succeeded then s.succeeded + {t.id} else s.succeeded)
      && s'.dead == if LastFailure(o, t.attempts, maxAttempts) then s.dead + [t.id] else s.dead
  {}

  // ---- what every step keeps ------------------------------------------------------------------------

  function Bag(ts: seq<Task>): multiset<nat>
  {
    if |ts| == 0 then multiset{} else multiset{ts[0].id} + Bag(ts[1..])
  }

  lemma {:induction false} BagAppend(a: seq<Task>, b: seq<Task>)
    ensures Bag(a + b) == Bag(a) + Bag(b)
  {
    if |a| == 0 {
      assert a + b == b;
    } else {
      assert (a + b)[1..] == a[1..] + b;
      BagAppend(a[1..], b);
    }
  }

  lemma BagSplit(ts: seq<Task>, n: nat)
    requires n <= |ts|
    ensures Bag(ts) == Bag(ts[..n]) + Bag(ts[n..])
  {
    assert ts == ts[..n] + ts[n..];
    BagAppend(ts[..n], ts[n..]);
  }

  lemma BagCons(t: Task, ts: seq<Task>)
    ensures Bag([t] + ts) == multiset{t.id} + Bag(ts)
  {
    assert ([t] + ts)[1..] == ts;
  }

  lemma {:induction false} BagInsert(delayed: seq<Task>, t: Task)
    ensures Bag(InsertByTime(delayed, t)) == Bag(delayed) + multiset{t.id}
    ensures |InsertByTime(delayed, t)| == |delayed| + 1
  {
    if |delayed| == 0 || t.notBefore < delayed[0].notBefore {
      BagCons(t, delayed);
    } else {
      BagInsert(delayed[1..], t);
      BagCons(delayed[0], InsertByTime(delayed[1..], t));
    }
  }

  lemma {:induction false} InsertMembers(delayed: seq<Task>, t: Task, x: Task)
    ensures x in InsertByTime(delayed, t) <==> x in delayed || x == t
  {
    if |delayed| > 0 && !(t.notBefore < delayed[0].notBefore) {
      InsertMembers(delayed[1..], t, x);
      assert delayed == [delayed[0]] + delayed[1..];
    }
  }

  lemma {:induction false} InsertAdds(delayed: seq<Task>, t: Task)
    ensures multiset(InsertByTime(delayed, t)) == multiset(delayed) + multiset{t}
  {
    if |delayed| > 0 && !(t.notBefore < delayed[0].notBefore) {
      InsertAdds(delayed[1..], t);
      assert delayed == [delayed[0]] + delayed[1..];
    }
  }

  /** A requeued task comes after everything due no later than it, in front of everything due later, and nothing
      else moves. */
  lemma {:induction false} InsertIsStable(delayed: seq<Task>, t: Task) returns (n: nat)
    requires ByTime(delayed)
    ensures n <= |delayed| && InsertByTime(delayed, t) == delayed[..n] + [t] + delayed[n..]
    ensures forall i :: 0 <= i < |delayed| ==> (delayed[i].notBefore <= t.notBefore <==> i < n)
  {
    n := 0;
    if |delayed| > 0 && !(t.notBefore < delayed[0].notBefore) {
      var rest := delayed[1..];
      var m := InsertIsStable(rest, t);
      n := m + 1;
      assert delayed[..n] == [delayed[0]] + rest[..m] && delayed[n..] == rest[m..];
      assert forall i :: 1 <= i < |delayed| ==> delayed[i] == rest[i - 1];
    }
  }

  lemma AddOne(s: set<nat>, id: nat)
    requires id !in s
    ensures multiset(s + {id}) == multiset(s) + multiset{id}
  {}

  predicate ByTime(delayed: seq<Task>)
  {
    forall i, j :: 0 <= i < j < |delayed| ==> delayed[i].notBefore <= delayed[j].notBefore
  }

  lemma {:induction false} InsertKeepsOrder(delayed: seq<Task>, t: Task)
    requires ByTime(delayed)
    ensures ByTime(InsertByTime(delayed, t))
  {
    if |delayed| > 0 && !(t.notBefore < delayed[0].notBefore) {
      InsertKeepsOrder(delayed[1..], t);
      var rest := InsertByTime(delayed[1..], t);
      forall i | 0 <= i < |rest|
        ensures delayed[0].notBefore <= rest[i].notBefore
      {
        InsertMembers(delayed[1..], t, rest[i]);
      }
    }
  }

  /** On an ordered list the front part that is due is everything that is due. */
  lemma {:induction false} PromotesExactlyTheDue(delayed: seq<Task>, now: int)
    requires ByTime(delayed)
    ensures
      var n := DueCount(delayed, now);
      && (forall i :: 0 <= i < n ==> delayed[i].notBefore <= now)
      && (forall i :: n <= i < |delayed| ==> delayed[i].notBefore > now)
  {
    if |delayed| > 0 && delayed[0].notBefore <= now {
      var rest := delayed[1..];
      PromotesExactlyTheDue(rest, now);
      assert forall i :: 1 <= i < |delayed| ==> delayed[i] == rest[i - 1];
    }
  }

  /** A task that is not running has been processed as often as it has attempts on record. */
  predicate TaskOk(runs: map<nat, nat>, t: Task, maxAttempts: nat, inProgress: nat)
  {
    t.attempts < maxAttempts && t.id in runs && runs[t.id] == t.attempts + inProgress
  }

  predicate AllOk(runs: map<nat, nat>, ts: seq<Task>, maxAttempts: nat)
  {
    forall t :: t in ts ==> TaskOk(runs, t, maxAttempts, 0)
  }

  predicate RunningOk(runs: map<nat, nat>, running: map<nat, Task>, maxAttempts: nat)
  {
    forall id :: id in running ==> running[id].id == id && TaskOk(runs, running[id], maxAttempts, 1)
  }

  /** Every submitted task is in exactly one place, and the depth counts those not yet released. */
  ghost predicate Placed(s: State)
  {
    && Bag(s.ready) + Bag(s.delayed) + multiset(s.running.Keys) + multiset(s.released) == multiset(s.runs.Keys)
    && s.depth == |s.ready| + |s.delayed| + |s.running|
  }

  /** Besides, waiting retries are in order, nothing has been processed more often than allowed, and
      every released task ended exactly once, as a success or as a dead letter. */
  ghost predicate Inv(s: State, maxAttempts: nat)
  {
    && maxAttempts >= 1 && !s.closed
    && Placed(s)
    && ByTime(s.delayed)
    && AllOk(s.runs, s.ready, maxAttempts)
    && AllOk(s.runs, s.delayed, maxAttempts)
    && RunningOk(s.runs, s.running, maxAttempts)
    && (forall id :: id in s.runs ==> s.runs[id] <= maxAttempts)
    && multiset(s.succeeded) + multiset(s.dead) == multiset(s.released)
  }

  lemma ReadyGrows(ready: seq<Task>, id: nat)
    ensures Bag(ready + [Task(id, 0, 0)]) == Bag(ready) + multiset{id}
  {
    BagAppend(ready, [Task(id, 0, 0)]);
    BagCons(Task(id, 0, 0), []);
  }

  lemma SubmitPlaced(s: State, id: nat)
    requires Placed(s) && id !in s.runs && !s.closed
    ensures Placed(Submitted(s, id))
  {
    ReadyGrows(s.ready, id);
    var s' := Submitted(s, id);
    assert s'.runs.Keys == s.runs.Keys + {id};
    AddOne(s.runs.Keys, id);
    AddReady(Bag(s.ready), Bag(s.delayed), multiset(s.running.Keys), multiset(s.released),
             multiset(s.runs.Keys), multiset{id});
  }

  lemma AddReady(
    a: multiset<nat>, b: multiset<nat>, c: multiset<nat>, d: multiset<nat>, all: multiset<nat>, x: multiset<nat>)
    requires a + b + c + d == all
    ensures a + x + b + c + d == all + x
  {}

  lemma SubmitKeepsInv(s: State, id: nat, maxAttempts: nat)
    requires Inv(s, maxAttempts) && id !in s.runs
    ensures Inv(Submitted(s, id), maxAttempts)
  {
    SubmitPlaced(s, id);
    assert AllOk(s.runs[id := 0], s.ready + [Task(id, 0, 0)], maxAttempts);
    assert AllOk(s.runs[id := 0], s.delayed, maxAttempts);
    assert RunningOk(s.runs[id := 0], s.running, maxAttempts);
  }

  lemma PromotePlaced(s: State, now: int)
    requires Placed(s)
    ensures Placed(Promoted(s, now))
  {
    var n := DueCount(s.delayed, now);
    BagSplit(s.delayed, n);
    BagAppend(s.ready, s.delayed[..n]);
    Regroup(Bag(s.ready), Bag(s.delayed[..n]), Bag(s.delayed[n..]));
  }

  lemma Regroup(a: multiset<nat>, b: multiset<nat>, c: multiset<nat>)
    ensures a + b + c == a + (b + c)
  {}

  lemma PromoteKeepsInv(s: State, now: int, maxAttempts: nat)
    requires Inv(s, maxAttempts)
    ensures Inv(Promoted(s, now), maxAttempts)
  {
    var n := DueCount(s.delayed, now);
    PromotePlaced(s, now);
    assert forall t :: t in s.delayed[..n] ==> t in s.delayed;
    assert forall t :: t in s.delayed[n..] ==> t in s.delayed;
  }

  lemma InPlace(s: State, id: nat)
    requires Placed(s)
    ensures Bag(s.ready)[id] + Bag(s.delayed)[id] + multiset(s.running.Keys)[id] + multiset(s.released)[id] <= 1
  {
    var all := Bag(s.ready) + Bag(s.delayed) + multiset(s.running.Keys) + multiset(s.released);
    assert all[id] == multiset(s.runs.Keys)[id] <= 1;
  }

  lemma {:induction false} BagCounts(ts: seq<Task>, t: Task)
    requires t in ts
    ensures Bag(ts)[t.id] >= 1
  {
    if ts[0] != t {
      assert t in ts[1..];
      BagCounts(ts[1..], t);
    }
  }

  /** The first ready task is nowhere else. */
  lemma HeadIsOnlyReady(s: State)
    requires Placed(s) && |s.ready| > 0
    ensures s.ready[0].id !in s.running && s.ready[0].id !in s.released && s.ready[0].id in s.runs
    ensures forall x :: x in s.ready[1..] || x in s.delayed ==> x.id != s.ready[0].id
  {
    var id := s.ready[0].id;
    assert Bag(s.ready) == multiset{id} + Bag(s.ready[1..]);
    InPlace(s, id);
    assert multiset(s.runs.Keys)[id] >= 1;
    forall x | x in s.ready[1..] || x in s.delayed
      ensures x.id != id
    {
      if x in s.ready[1..] { BagCounts(s.ready[1..], x); } else { BagCounts(s.delayed, x); }
    }
  }

  lemma StartPlaced(s: State)
    requires Placed(s) && |s.ready| > 0
    ensures Placed(Started(s)) && Started(s).runs.Keys == s.runs.Keys
  {
    var s', id := Started(s), s.ready[0].id;
    HeadIsOnlyReady(s);
    assert s'.running.Keys == s.running.Keys + {id};
    AddOne(s.running.Keys, id);
    assert s'.runs.Keys == s.runs.Keys;
    assert |s'.running| == |s'.running.Keys| && |s.running| == |s.running.Keys|;
    Swap(multiset{id}, Bag(s.ready[1..]), Bag(s.delayed), multiset(s.running.Keys));
  }

  lemma Swap(x: multiset<nat>, a: multiset<nat>, b: multiset<nat>, c: multiset<nat>)
    ensures x + a + b + c == a + b + (c + x)
  {}

  lemma StartKeepsInv(s: State, maxAttempts: nat)
    requires Inv(s, maxAttempts) && |s.ready| > 0
    ensures Inv(Started(s), maxAttempts)
  {
    var s', t := Started(s), s.ready[0];
    StartPlaced(s);
    HeadIsOnlyReady(s);
    assert t in s.ready && forall x :: x in s.ready[1..] ==> x in s.ready;
    assert AllOk(s'.runs, s'.ready, maxAttempts);
    assert AllOk(s'.runs, s'.delayed, maxAttempts);
    assert RunningOk(s'.runs, s'.running, maxAttempts);
  }

  lemma LeaveRunning(s: State, id: nat)
    requires id in s.running
    ensures multiset(s.running.Keys) == multiset((s.running - {id}).Keys) + multiset{id}
    ensures |s.running| == |s.running - {id}| + 1
  {
    assert (s.running - {id}).Keys == s.running.Keys - {id};
    assert s.running.Keys == (s.running.Keys - {id}) + {id};
    assert |s.running| == |s.running.Keys| && |s.running - {id}| == |(s.running - {id}).Keys|;
  }

  lemma CompleteKeepsInv(s: State, id: nat, succeeded: set<nat>, dead: seq<nat>, maxAttempts: nat)
    requires Inv(s, maxAttempts) && id in s.running
    requires (succeeded, dead) in {(s.succeeded + {id}, s.dead), (s.succeeded, s.dead + [id])}
    ensures Inv(Completed(s, id).(succeeded := succeeded, dead := dead), maxAttempts)
  {
    CompletePlaced(s, id);
    assert RunningOk(s.runs, s.running - {id}, maxAttempts);
    EndsOnce(s.released, s.succeeded, s.dead, id);
  }

  lemma EndsOnce(released: set<nat>, succeeded: set<nat>, dead: seq<nat>, id: nat)
    requires multiset(succeeded) + multiset(dead) == multiset(released) && id !in released
    ensures multiset(succeeded + {id}) + multiset(dead) == multiset(released + {id})
    ensures multiset(succeeded) + multiset(dead + [id]) == multiset(released + {id})
  {
    assert (multiset(succeeded) + multiset(dead))[id] == 0;
    assert id !in succeeded;
    AddOne(succeeded, id);
    AddOne(released, id);
  }

  lemma CompletePlaced(s: State, id: nat)
    requires Placed(s) && id in s.running
    ensures Placed(Completed(s, id)) && id !in s.released
  {
    LeaveRunning(s, id);
    InPlace(s, id);
    assert multiset(s.running.Keys)[id] == 1;
    assert id !in s.released;
    AddOne(s.released, id);
  }

  lemma RequeuePlaced(s: State, t: Task)
    requires Placed(s) && t.id in s.running && !s.closed
    ensures Placed(Requeued(s, t))
  {
    LeaveRunning(s, t.id);
    BagInsert(s.delayed, t);
    FromRunningToDelayed(Bag(s.ready), Bag(s.delayed), multiset((s.running - {t.id}).Keys),
                         multiset(s.released), multiset{t.id});
  }

  lemma FromRunningToDelayed(a: multiset<nat>, b: multiset<nat>, c: multiset<nat>, d: multiset<nat>, x: multiset<nat>)
    ensures a + (b + x) + c + d == a + b + (c + x) + d
  {}

  lemma RequeueKeepsInv(s: State, id: nat, at: int, maxAttempts: nat)
    requires Inv(s, maxAttempts) && id in s.running && s.running[id].attempts + 1 < maxAttempts
    ensures Inv(Requeued(s, Task(id, s.running[id].attempts + 1, at)), maxAttempts)
  {
    var t := Task(id, s.running[id].attempts + 1, at);
    RequeuePlaced(s, t);
    InsertKeepsOrder(s.delayed, t);
    forall x | x in InsertByTime(s.delayed, t)
      ensures TaskOk(s.runs, x, maxAttempts, 0)
    {
      InsertMembers(s.delayed, t, x);
    }
    assert TaskOk(s.runs, s.running[id], maxAttempts, 1);
  }

  lemma FinishKeepsInv(s: State, id: nat, o: Outcome, now: int, maxAttempts: nat)
    requires Inv(s, maxAttempts) && id in s.running
    ensures Inv(Finished(s, s.running[id], o, now, maxAttempts), maxAttempts)
  {
    if Retries(s.running[id], o, maxAttempts) {
      RequeueKeepsInv(s, id, now + o.wait, maxAttempts);
    } else {
      CompleteKeepsInv(s, id, s.succeeded + {id}, s.dead, maxAttempts);
      CompleteKeepsInv(s, id, s.succeeded, s.dead + [id], maxAttempts);
    }
  }

  // ---- any number of workers ---------------------------------------------------------------------------

  datatype Step = Submit(id: nat) | Take(now: int) | Finish(id: nat, outcome: Outcome, now: int)

  predicate Enabled(s: State, step: Step)
  {
    match step
    case Submit(id) => id !in s.runs
    case Take(_) => true
    case Finish(id, _, _) => id in s.running
  }

  function Next(s: State, step: Step, maxAttempts: nat): State
    requires Enabled(s, step)
  {
    match step
    case Submit(id) => Submitted(s, id)
    case Take(now) => if |Promoted(s, now).ready| > 0 then Started(Promoted(s, now)) else Promoted(s, now)
    case Finish(id, o, now) => Finished(s, s.running[id], o, now, maxAttempts)
  }

  ghost predicate IsRun(s: State, steps: seq<Step>, maxAttempts: nat)
    decreases steps
  {
    |steps| > 0 ==> Enabled(s, steps[0]) && IsRun(Next(s, steps[0], maxAttempts), steps[1..], maxAttempts)
  }

  ghost function Run(s: State, steps: seq<Step>, maxAttempts: nat): State
    requires IsRun(s, steps, maxAttempts)
    decreases steps
  {
    if |steps| == 0 then s else Run(Next(s, steps[0], maxAttempts), steps[1..], maxAttempts)
  }

  lemma StepKeepsInv(s: State, step: Step, maxAttempts: nat)
    requires Inv(s, maxAttempts) && Enabled(s, step)
    ensures Inv(Next(s, step, maxAttempts), maxAttempts)
  {
    match step
    case Submit(id) => SubmitKeepsInv(s, id, maxAttempts);
    case Take(now) =>
      PromoteKeepsInv(s, now, maxAttempts);
      if |Promoted(s, now).ready| > 0 { StartKeepsInv(Promoted(s, now), maxAttempts); }
    case Finish(id, o, now) => FinishKeepsInv(s, id, o, now, maxAttempts);
  }

  /** Work is conserved: under any interleaving of submissions and of any number of workers, every task
      is in exactly one place, `depth` counts the unreleased ones, and no task is processed more than
      `maxAttempts` times or dead-lettered twice. */
  lemma {:induction false} WorkIsConserved(s: State, steps: seq<Step>, maxAttempts: nat)
    requires Inv(s, maxAttempts) && IsRun(s, steps, maxAttempts)
    ensures Inv(Run(s, steps, maxAttempts), maxAttempts)
    decreases steps
  {
    if |steps| > 0 {
      StepKeepsInv(s, steps[0], maxAttempts);
      WorkIsConserved(Next(s, steps[0], maxAttempts), steps[1..], maxAttempts);
    }
  }

  lemma InitialInv(maxAttempts: nat)
    requires maxAttempts >= 1
    ensures Inv(Initial, maxAttempts)
  {
    assert multiset(Initial.runs.Keys) == multiset{};
  }

  // ---- how every task ends -----------------------------------------------------------------------------

  /** How often a run has processed a task to its end. */
  function Tries(steps: seq<Step>, id: nat): nat
  {
    if |steps| == 0 then 0
    else
      var last := steps[|steps| - 1];
      Tries(steps[..|steps| - 1], id) + if last.Finish? && last.id == id then 1 else 0
  }

  /** The task was processed successfully. */
  predicate Done(steps: seq<Step>, id: nat)
  {
    exists i :: 0 <= i < |steps| && steps[i].Finish? && steps[i].id == id && steps[i].outcome == Succeeded
  }

  predicate GivesUp(steps: seq<Step>, i: nat, id: nat, maxAttempts: nat)
    requires i < |steps|
  {
    && steps[i].Finish? && steps[i].id == id && steps[i].outcome.Failed?
    && (steps[i].outcome.retryable ==> Tries(steps[..i + 1], id) == maxAttempts)
  }

  /** The task failed for good, or failed for the last time it was allowed to. */
  predicate GivenUp(steps: seq<Step>, id: nat, maxAttempts: nat)
  {
    exists i :: 0 <= i < |steps| && GivesUp(steps, i, id, maxAttempts)
  }

  lemma TriesSnoc(steps: seq<Step>, step: Step, id: nat)
    ensures Tries(steps + [step], id) == Tries(steps, id) + if step.Finish? && step.id == id then 1 else 0
  {
    assert (steps + [step])[..|steps|] == steps;
  }

  lemma DoneSnoc(steps: seq<Step>, step: Step, id: nat)
    ensures Done(steps + [step], id)
       <==> Done(steps, id) || (step.Finish? && step.id == id && step.outcome == Succeeded)
  {
    assert (steps + [step])[|steps|] == step;
    assert forall i :: 0 <= i < |steps| ==> (steps + [step])[i] == steps[i];
  }

  lemma GivenUpSnoc(steps: seq<Step>, step: Step, id: nat, maxAttempts: nat)
    ensures GivenUp(steps + [step], id, maxAttempts)
       <==> GivenUp(steps, id, maxAttempts) || GivesUp(steps + [step], |steps|, id, maxAttempts)
  {
    forall i | 0 <= i < |steps|
      ensures GivesUp(steps + [step], i, id, maxAttempts) <==> GivesUp(steps, i, id, maxAttempts)
    {
      assert (steps + [step])[..i + 1] == steps[..i + 1];
    }
  }

  /** How often the state says a task has been processed to its end. */
  function Tally(s: State, id: nat): int
  {
    var runs: int := if id in s.runs then s.runs[id] else 0;
    if id in s.running then runs - 1 else runs
  }

  /** What the state remembers of the run that led to it. */
  ghost predicate Remembers(s: State, steps: seq<Step>, maxAttempts: nat, id: nat)
  {
    && Tally(s, id) == Tries(steps, id)
    && (id in s.succeeded <==> Done(steps, id))
    && (id in s.dead <==> GivenUp(steps, id, maxAttempts))
  }

  /** What one step adds to that. */
  ghost predicate Notes(s: State, s': State, step: Step, maxAttempts: nat, id: nat)
  {
    var finishes := step.Finish? && step.id == id;
    && Tally(s', id) == Tally(s, id) + (if finishes then 1 else 0)
    && (id in s'.succeeded <==> id in s.succeeded || (finishes && step.outcome == Succeeded))
    && (id in s'.dead <==>
          || id in s.dead
          || (finishes && step.outcome.Failed? && (step.outcome.retryable ==> Tally(s, id) + 1 == maxAttempts)))
  }

  lemma TakeNotes(s: State, step: Step, maxAttempts: nat, id: nat)
    requires Inv(s, maxAttempts) && step.Take?
    ensures Notes(s, Next(s, step, maxAttempts), step, maxAttempts, id)
  {
    if |Promoted(s, step.now).ready| > 0 {
      PromotePlaced(s, step.now);
      HeadIsOnlyReady(Promoted(s, step.now));
    }
  }

  lemma SubmitNotes(s: State, step: Step, maxAttempts: nat, id: nat)
    requires Inv(s, maxAttempts) && step.Submit? && Enabled(s, step)
    ensures Notes(s, Next(s, step, maxAttempts), step, maxAttempts, id)
  {}

  lemma FinishNotes(s: State, step: Step, maxAttempts: nat, id: nat)
    requires Inv(s, maxAttempts) && step.Finish? && Enabled(s, step)
    ensures Notes(s, Next(s, step, maxAttempts), step, maxAttempts, id)
  {
    var t := s.running[step.id];
    assert TaskOk(s.runs, t, maxAttempts, 1);
    assert Tally(s, step.id) == t.attempts;
  }

  lemma StepRemembers(s: State, steps: seq<Step>, step: Step, maxAttempts: nat, id: nat)
    requires Remembers(s, steps, maxAttempts, id)
    requires Enabled(s, step) && Notes(s, Next(s, step, maxAttempts), step, maxAttempts, id)
    ensures Remembers(Next(s, step, maxAttempts), steps + [step], maxAttempts, id)
  {
    TriesSnoc(steps, step, id);
    DoneSnoc(steps, step, id);
    GivenUpSnoc(steps, step, id, maxAttempts);
    assert (steps + [step])[..|steps| + 1] == steps + [step] && (steps + [step])[|steps|] == step;
  }

  lemma StepNotes(s: State, step: Step, maxAttempts: nat, id: nat)
    requires Inv(s, maxAttempts) && Enabled(s, step)
    ensures Notes(s, Next(s, step, maxAttempts), step, maxAttempts, id)
  {
    match step
    case Submit(_) => SubmitNotes(s, step, maxAttempts, id);
    case Take(_) => TakeNotes(s, step, maxAttempts, id);
    case Finish(_, _, _) => FinishNotes(s, step, maxAttempts, id);
  }

  lemma {:induction false} RunRemembers(
    s: State, before: seq<Step>, steps: seq<Step>, maxAttempts: nat, id: nat)
    requires Inv(s, maxAttempts) && IsRun(s, steps, maxAttempts) && Remembers(s, before, maxAttempts, id)
    ensures Remembers(Run(s, steps, maxAttempts), before + steps, maxAttempts, id)
    decreases steps
  {
    if |steps| == 0 {
      assert before + steps == before;
    } else {
      StepNotes(s, steps[0], maxAttempts, id);
      StepRemembers(s, before, steps[0], maxAttempts, id);
      StepKeepsInv(s, steps[0], maxAttempts);
      RunRemembers(Next(s, steps[0], maxAttempts), before + [steps[0]], steps[1..], maxAttempts, id);
      assert before + [steps[0]] + steps[1..] == before + steps;
    }
  }

  /** How every task ends, in any run from an empty queue: it counts as a success if and only if it was processed
      successfully, and it is a dead letter if and only if it failed for good or as often as is allowed. Until
      then it is tried again, never more often than allowed. */
  lemma OutcomesDecide(steps: seq<Step>, maxAttempts: nat, id: nat)
    requires maxAttempts >= 1 && IsRun(Initial, steps, maxAttempts)
    ensures
      var end := Run(Initial, steps, maxAttempts);
      && (id in end.succeeded <==> Done(steps, id))
      && (id in end.dead <==> GivenUp(steps, id, maxAttempts))
      && Tries(steps, id) <= maxAttempts
      && (id in end.runs && !Done(steps, id) && !GivenUp(steps, id, maxAttempts) ==> id !in end.released)
  {
    InitialInv(maxAttempts);
    RunRemembers(Initial, [], steps, maxAttempts, id);
    WorkIsConserved(Initial, steps, maxAttempts);
    assert [] + steps == steps;
    var end := Run(Initial, steps, maxAttempts);
    if id in end.released {
      assert id in multiset(end.succeeded) + multiset(end.dead);
    }
  }

  // ---- draining -------------------------------------------------------------------------------------------

  /** Attempts the queued tasks still have left between them. */
  function Left(ts: seq<Task>, maxAttempts: nat): nat
  {
    if |ts| == 0 then 0
    else (if ts[0].attempts < maxAttempts then maxAttempts - ts[0].attempts else 0) + Left(ts[1..], maxAttempts)
  }

  function Fuel(s: State, maxAttempts: nat): nat { Left(s.ready, maxAttempts) + Left(s.delayed, maxAttempts) }

  lemma {:induction false} LeftAppend(a: seq<Task>, b: seq<Task>, maxAttempts: nat)
    ensures Left(a + b, maxAttempts) == Left(a, maxAttempts) + Left(b, maxAttempts)
  {
    if |a| == 0 {
      assert a + b == b;
    } else {
      assert (a + b)[1..] == a[1..] + b;
      LeftAppend(a[1..], b, maxAttempts);
    }
  }

  lemma {:induction false} LeftInsert(delayed: seq<Task>, t: Task, maxAttempts: nat)
    requires t.attempts < maxAttempts
    ensures Left(InsertByTime(delayed, t), maxAttempts) == Left(delayed, maxAttempts) + maxAttempts - t.attempts
  {
    if |delayed| == 0 || t.notBefore < delayed[0].notBefore {
      assert ([t] + delayed)[1..] == delayed;
    } else {
      LeftInsert(delayed[1..], t, maxAttempts);
      var rest := InsertByTime(delayed[1..], t);
      assert ([delayed[0]] + rest)[1..] == rest;
    }
  }

  lemma PromoteKeepsFuel(s: State, now: int, maxAttempts: nat)
    ensures Fuel(Promoted(s, now), maxAttempts) == Fuel(s, maxAttempts)
  {
    var n := DueCount(s.delayed, now);
    LeftAppend(s.ready, s.delayed[..n], maxAttempts);
    assert s.delayed == s.delayed[..n] + s.delayed[n..];
    LeftAppend(s.delayed[..n], s.delayed[n..], maxAttempts);
  }

  /** Whatever one pass over a task comes to, it uses up an attempt. */
  lemma PassBurnsFuel(s: State, o: Outcome, now: int, maxAttempts: nat)
    requires Inv(s, maxAttempts) && |s.ready| > 0
    ensures Fuel(Finished(Started(s), s.ready[0], o, now, maxAttempts), maxAttempts) < Fuel(s, maxAttempts)
  {
    var t := s.ready[0];
    assert t in s.ready;
    if Retries(t, o, maxAttempts) {
      LeftInsert(s.delayed, Task(t.id, t.attempts + 1, now + o.wait), maxAttempts);
    }
  }

  /** Taking the first ready task, processing it and settling it: the queue stays sound, nothing else
      that is running is touched, and an attempt is used up. */
  lemma OnePass(s: State, o: Outcome, now: int, maxAttempts: nat)
    requires Inv(s, maxAttempts) && |s.ready| > 0
    ensures
      var s' := Finished(Started(s), s.ready[0], o, now, maxAttempts);
      && Inv(s', maxAttempts) && Fuel(s', maxAttempts) < Fuel(s, maxAttempts)
      && s'.runs.Keys == s.runs.Keys && s'.running == s.running && s'.released >= s.released
  {
    var t := s.ready[0];
    HeadIsOnlyReady(s);
    StartKeepsInv(s, maxAttempts);
    assert Started(s).running[t.id] == t && Started(s).running - {t.id} == s.running;
    FinishKeepsInv(Started(s), t.id, o, now, maxAttempts);
    PassBurnsFuel(s, o, now, maxAttempts);
    StartPlaced(s);
  }

  /** Whatever ended between two states ended as processing it came to. */
  ghost predicate Explained(outcome: (nat, nat) -> Outcome, maxAttempts: nat, s: State, s': State)
  {
    && (forall id :: id in s'.succeeded && id !in s.succeeded ==> exists n: nat :: outcome(id, n) == Succeeded)
    && (forall id :: id in s'.dead && id !in s.dead ==>
          exists n: nat :: n < maxAttempts && LastFailure(outcome(id, n), n, maxAttempts))
  }

  lemma PassIsExplained(
    outcome: (nat, nat) -> Outcome, maxAttempts: nat, start: State, s: State, last: int, now: int)
    requires Inv(s, maxAttempts) && Explained(outcome, maxAttempts, start, s) && |Promoted(s, last).ready| > 0
    ensures
      var t := Promoted(s, last).ready[0];
      var o := outcome(t.id, t.attempts);
      Explained(outcome, maxAttempts, start, Finished(Started(Promoted(s, last)), t, o, now, maxAttempts))
  {
    PromoteKeepsInv(s, last, maxAttempts);
    var p := Promoted(s, last);
    var t := p.ready[0];
    assert TaskOk(p.runs, t, maxAttempts, 0) by { assert t in p.ready; }
    var o := outcome(t.id, t.attempts);
    if o.Failed? && o.retryable && t.attempts + 1 < maxAttempts {
      RetryMeans(Started(p), t, o, now, maxAttempts);
    } else {
      EndMeans(Started(p), t, o, now, maxAttempts);
    }
  }

  class Engine {
    const maxAttempts: nat
    var ready: seq<Task>
    var delayed: seq<Task>
    var depth: int
    var closed: bool
    var running: map<nat, Task>
    var released: set<nat>
    var succeeded: set<nat>
    var dead: seq<nat>
    var runs: map<nat, nat>

    ghost function Now(): State
      reads this
    {
      State(ready, delayed, depth, closed, running, released, succeeded, dead, runs)
    }

    constructor (maxAttempts: nat)
      requires maxAttempts >= 1
      ensures this.maxAttempts == maxAttempts && Inv(Now(), maxAttempts) && Now() == Initial
    {
      this.maxAttempts := maxAttempts;
      ready, delayed, depth, closed, running := [], [], 0, false, map[];
      released, succeeded, dead, runs := {}, {}, [], map[];
      InitialInv(maxAttempts);
    }

    method Push(id: nat) returns (ok: bool)
      modifies this
      ensures ok == !old(closed) && Now() == Submitted(old(Now()), id)
      ensures ready == (if ok then old(ready) + [Task(id, 0, 0)] else old(ready)) && delayed == old(delayed)
      ensures released == (if ok then old(released) else old(released) + {id})
      ensures depth == if ok then old(depth) + 1 else old(depth)
    {
      runs := runs[id := 0];
      if closed {
        released := released + {id};
        return false;
      }
      ready := ready + [Task(id, 0, 0)];
      depth := depth + 1;
      ok := true;
    }

    method Promote(now: int)
      modifies this`ready, this`delayed
      ensures Now() == Promoted(old(Now()), now)
    {
      var i := 0;
      while i < |delayed| && delayed[i].notBefore <= now
        invariant 0 <= i <= |delayed| && delayed == old(delayed)
        invariant ready == old(ready) + delayed[..i]
        invariant DueCount(delayed, now) == i + DueCount(delayed[i..], now)
      {
        assert delayed[i..][1..] == delayed[i + 1..];
        assert delayed[..i + 1] == delayed[..i] + [delayed[i]];
        ready := ready + [delayed[i]];
        i := i + 1;
      }
      delayed := delayed[i..];
    }

    /** Takes a ready task and hands it to the caller to process. */
    method NextTask(now: int) returns (found: bool, t: Task)
      modifies this`ready, this`delayed, this`running, this`runs
      ensures found <==> |Promoted(old(Now()), now).ready| > 0
      ensures found ==> t == Promoted(old(Now()), now).ready[0] && Now() == Started(Promoted(old(Now()), now))
      ensures !found ==> Now() == Promoted(old(Now()), now)
    {
      Promote(now);
      if |ready| == 0 { return false, Task(0, 0, 0); }
      t := ready[0];
      ready := ready[1..];
      running := running[t.id := t];
      runs := runs[t.id := (if t.id in runs then runs[t.id] else 0) + 1];
      found := true;
    }

    method Complete(id: nat)
      modifies this`running, this`released, this`depth
      ensures Now() == Completed(old(Now()), id)
    {
      running := running - {id};
      released := released + {id};
      depth := depth - 1;
    }

    method Requeue(t: Task)
      modifies this`running, this`released, this`delayed
      ensures Now() == Requeued(old(Now()), t)
    {
      running := running - {t.id};
      if closed {
        released := released + {t.id};
        return;
      }
      delayed := InsertByTime(delayed, t);
    }

    /** What happens to a task after it was processed. */
    method Settle(t: Task, o: Outcome, now: int)
      modifies this
      ensures Now() == Finished(old(Now()), t, o, now, maxAttempts)
    {
      if o.Succeeded? {
        succeeded := succeeded + {t.id};
        Complete(t.id);
        return;
      }
      var attempts := t.attempts + 1;
      if o.retryable && attempts < maxAttempts {
        Requeue(Task(t.id, attempts, now + o.wait));
        return;
      }
      dead := dead + [t.id];
      Complete(t.id);
    }

    /** Processes everything that is ready and keeps going until nothing is. Processing may come to any
        outcome and the clock may read anything; the loop still ends. */
    method Drain(outcome: (nat, nat) -> Outcome, clock: nat -> int) returns (last: int)
      requires Inv(Now(), maxAttempts)
      modifies this
      ensures Inv(Now(), maxAttempts) && runs.Keys == old(runs.Keys)
      ensures running == old(running) && released >= old(released)
      ensures ready == [] && forall t :: t in delayed ==> t.notBefore > last
      ensures Explained(outcome, maxAttempts, old(Now()), Now())
    {
      var tick := 0;
      while true
        invariant Inv(Now(), maxAttempts) && runs.Keys == old(runs.Keys)
        invariant running == old(running) && released >= old(released)
        invariant Explained(outcome, maxAttempts, old(Now()), Now())
        decreases Fuel(Now(), maxAttempts)
      {
        last := clock(tick);
        ghost var before := Now();
        PromoteKeepsInv(before, last, maxAttempts);
        PromoteKeepsFuel(before, last, maxAttempts);
        var found, t := NextTask(last);
        if !found {
          PromotesExactlyTheDue(before.delayed, last);
          return;
        }
        var o, now := outcome(t.id, t.attempts), clock(tick + 1);
        OnePass(Promoted(before, last), o, now, maxAttempts);
        PassIsExplained(outcome, maxAttempts, old(Now()), before, last, now);
        Settle(t, o, now);
        tick := tick + 2;
      }
    }

    method Close()
      modifies this
      ensures closed && ready == [] && delayed == [] && depth == 0
      ensures released == old(released) + (set t | t in old(ready) + old(delayed) :: t.id)
    {
      closed := true;
      var pending := ready + delayed;
      ready, delayed, depth := [], [], 0;
      for i := 0 to |pending|
        invariant closed && ready == [] && delayed == [] && depth == 0
        invariant released == old(released) + (set t | t in pending[..i] :: t.id)
      {
        assert pending[..i + 1] == pending[..i] + [pending[i]];
        released := released + {pending[i].id};
      }
      assert pending[..|pending|] == pending;
    }
  }

  // ---- backoff ---------------------------------------------------------------------------------------------

  const MIN_BACKOFF: nat := 100
  const BASE_BACKOFF: nat := 250
  const MAX_BACKOFF: nat := 30000

  function Doubled(n: nat): nat { if n == 0 then BASE_BACKOFF else 2 * Doubled(n - 1) }

  /** `draw` is the random number up to the window; the peer's own hint wins when it is longer. The window doubles
      with every attempt, from a quarter of a second to half a minute. */
  method Backoff(attempts: nat, draw: nat -> nat, hint: int) returns (wait: int)
    requires forall w :: draw(w) <= w
    ensures 100 <= wait && hint <= wait && (wait <= hint || wait <= 30000)
    ensures
      var doubled := Doubled(if attempts == 0 then 0 else attempts - 1);
      var jittered := draw(if doubled < 30000 then doubled else 30000);
      wait == if hint > 100 && hint > jittered then hint else if jittered > 100 then jittered else 100
  {
    var window, i := BASE_BACKOFF, 1;
    while i < attempts && window < MAX_BACKOFF
      invariant 1 <= i && (i <= attempts || i == 1) && window == Doubled(i - 1)
    {
      window := window * 2;
      i := i + 1;
    }
    DoubledGrows(i - 1, if attempts == 0 then 0 else attempts - 1);
    if window > MAX_BACKOFF { window := MAX_BACKOFF; }
    var jittered := draw(window);
    if jittered < MIN_BACKOFF { jittered := MIN_BACKOFF; }
    wait := if hint > jittered then hint else jittered;
  }

  /** Seven doublings pass the half minute. */
  lemma DoubledValues()
    ensures Doubled(0) == 250 && Doubled(1) == 500 && Doubled(2) == 1000 && Doubled(7) == 32000
  {
    assert Doubled(3) == 2000 && Doubled(5) == 8000;
  }

  lemma {:induction false} DoubledGrows(m: nat, n: nat)
    requires m <= n
    ensures Doubled(m) <= Doubled(n)
    decreases n
  {
    if m < n { DoubledGrows(m, n - 1); }
  }
}
