/** How long a linked pair can go on being written (`reconcile` and `write` in internal/engine/pipeline.go)
    when peers answer with failures, responses get lost, retries follow, and idempotency keys outlive their
    lifetime. */
module RetryLoop {
  import opened Wrappers
  import opened Model
  import opened Digest
  import Ordering
  import Conflict
  import opened Reconcile

  // ---- counting left writes ------------------------------------------------------------------

  /** Mapped fields on which a write to the left could still change something. */
  function Pending(cfg: Config, p: Pair): set<string> { set f | f in cfg.names && !Arrived(p.left, p.right, f) }

  /** Some value is news to the left side. */
  ghost predicate Moves(p: Pair, values: Fields) { exists f :: f in values && !Arrived(p.left, p.right, f) }

  /** The state the left side is in is on record, so sending it again would be skipped. */
  function Noted(cfg: Config, p: Pair): nat { if KeyFor(cfg, Left, p.left) in p.committed then 1 else 0 }

  function Owed(cfg: Config, p: Pair): nat { p.leftUpserts + |Pending(cfg, p)| }

  lemma FewerPending(cfg: Config, p: Pair, q: Pair)
    requires Pending(cfg, q) <= Pending(cfg, p)
    ensures |Pending(cfg, q)| <= |Pending(cfg, p)|
    ensures forall f :: f in Pending(cfg, p) && f !in Pending(cfg, q) ==> |Pending(cfg, q)| < |Pending(cfg, p)|
  {
    SubsetSize(Pending(cfg, q), Pending(cfg, p));
    if f :| f in Pending(cfg, p) && f !in Pending(cfg, q) {
      SubsetSize(Pending(cfg, q), Pending(cfg, p) - {f});
    }
  }

  lemma NewStateMoves(cfg: Config, p: Pair, values: Fields)
    requires Carried(cfg, p.right, values)
    requires KeyFor(cfg, Left, p.left) in p.committed && KeyFor(cfg, Left, Merge(p.left, values)) !in p.committed
    ensures Moves(p, values)
  {
    KeyDecidesFields(cfg, Left, Merge(p.left, values), p.left);
    var f :| f in cfg.names && !SameField(Merge(p.left, values), p.left, f);
    assert f in values && !Arrived(p.left, p.right, f);
  }

  /** A left write that lands leaves less to send, or is the first since its state was last on record. */
  lemma LandingCounts(cfg: Config, p: Pair, values: Fields, p1: Pair)
    requires Carried(cfg, p.right, values) && Calls(cfg, p, Left, values)
    requires p1.left == Merge(p.left, values) && p1.right == p.right && p1.leftUpserts == p.leftUpserts + 1
    ensures Owed(cfg, p1) + Noted(cfg, p) <= Owed(cfg, p) + 1
    ensures Moves(p, values) ==> Owed(cfg, p1) <= Owed(cfg, p)
  {
    FewerPending(cfg, p, p1);
    if KeyFor(cfg, Left, p.left) in p.committed { NewStateMoves(cfg, p, values); }
    if f :| f in values && !Arrived(p.left, p.right, f) {
      assert f in Pending(cfg, p) && f !in Pending(cfg, p1);
    }
  }

  lemma LeftWriteCounts(cfg: Config, p: Pair, values: Fields, at: int)
    requires Carried(cfg, p.right, values)
    ensures
      var p1 := Write(cfg, p, Left, values, at);
      && Owed(cfg, p1) + Noted(cfg, p) <= Owed(cfg, p) + Noted(cfg, p1)
      && (Moves(p, values) || values == map[] ==> Owed(cfg, p1) <= Owed(cfg, p))
  {
    if Calls(cfg, p, Left, values) { LandingCounts(cfg, p, values, Write(cfg, p, Left, values, at)); }
  }

  /** A right write sends the left side's own values, so it leaves the left side no more to receive. */
  lemma RightWriteCounts(cfg: Config, p: Pair, values: Fields, p2: Pair)
    requires Carried(cfg, p.left, values) && p2.right in {p.right, Merge(p.right, values)}
    requires p2.left == p.left && p2.leftUpserts == p.leftUpserts && p.committed <= p2.committed
    ensures Owed(cfg, p2) <= Owed(cfg, p) && Noted(cfg, p) <= Noted(cfg, p2)
  {
    FewerPending(cfg, p, p2);
  }

  lemma RightHalfCounts(cfg: Config, p: Pair, forRight: Fields, e: Event, leftFinal: Fields, rightFinal: Fields)
    requires Carried(cfg, p.left, forRight)
    ensures
      var next := RightHalf(cfg, p, forRight, e, leftFinal, rightFinal);
      Owed(cfg, next) <= Owed(cfg, p) && Noted(cfg, p) <= Noted(cfg, next)
  {
    RightHalfKeepsLeft(cfg, p, forRight, e, leftFinal, rightFinal);
    RightWriteCounts(cfg, p, forRight, RightHalf(cfg, p, forRight, e, leftFinal, rightFinal));
  }

  lemma RightHalfKeepsLeft(cfg: Config, p: Pair, forRight: Fields, e: Event, leftFinal: Fields, rightFinal: Fields)
    ensures
      var next := RightHalf(cfg, p, forRight, e, leftFinal, rightFinal);
      && next.leftUpserts == p.leftUpserts && next.left == p.left && p.committed <= next.committed
      && next.right in {p.right, Merge(p.right, forRight)}
  {
    if Fails(cfg, p, Right, forRight, e.fault) {
      assert RightHalf(cfg, p, forRight, e, leftFinal, rightFinal) == p;
    } else if Loses(cfg, p, Right, forRight, e.fault) {
      assert RightHalf(cfg, p, forRight, e, leftFinal, rightFinal) == Upserted(p, Right, forRight, e.at);
    } else {
      RightWriteKeepsLeft(cfg, p, forRight, e.at);
    }
  }

  lemma RightWriteKeepsLeft(cfg: Config, p: Pair, values: Fields, at: int)
    ensures
      var p2 := Write(cfg, p, Right, values, at);
      && p2.leftUpserts == p.leftUpserts && p2.left == p.left && p.committed <= p2.committed
      && p2.right in {p.right, Merge(p.right, values)}
  {}

  /** One for an event that loses something. */
  function Loss(e: Event): nat { if Lossy(e.fault) then 1 else 0 }

  /** One for an event before which some key had outlived its lifetime. */
  function Lapse(e: Event): nat { if e.expired == {} then 0 else 1 }

  lemma WrittenCounts(cfg: Config, p: Pair, forLeft: Fields, forRight: Fields, e: Event)
    requires Sendable(cfg, p, forLeft, forRight)
    ensures
      var next := Written(cfg, p, forLeft, forRight, e);
      && Owed(cfg, next) + Noted(cfg, p) <= Owed(cfg, p) + Noted(cfg, next) + Loss(e)
      && (Moves(p, forLeft) || forLeft == map[] ==> Owed(cfg, next) <= Owed(cfg, p))
  {
    if Fails(cfg, p, Left, forLeft, e.fault) {
      assert Written(cfg, p, forLeft, forRight, e) == p;
    } else if Loses(cfg, p, Left, forLeft, e.fault) {
      LandingCounts(cfg, p, forLeft, Upserted(p, Left, forLeft, e.at));
    } else {
      var p1 := Write(cfg, p, Left, forLeft, e.at);
      LeftWriteCounts(cfg, p, forLeft, e.at);
      RestCarried(cfg, p, p1, forLeft, forRight, e.at);
      RightHalfCounts(cfg, p1, forRight, e, Merge(p.left, forLeft), Merge(p.right, forRight));
    }
  }

  /** What goes to the right is still what the left side holds, once the left side has been written. */
  lemma RestCarried(cfg: Config, p: Pair, p1: Pair, forLeft: Fields, forRight: Fields, at: int)
    requires Sendable(cfg, p, forLeft, forRight) && p1 == Write(cfg, p, Left, forLeft, at)
    ensures Carried(cfg, p1.left, forRight)
  {}

  /** A decision to write both sides whose left half is no news to the left side: it can only repeat what is
      already there, as often as the right half fails and the record of it lapses. */
  ghost predicate Stuck(cfg: Config, p: Pair) { StuckOn(p, Decision(cfg, p)) }

  ghost predicate StuckOn(p: Pair, res: Conflict.Resolution)
  {
    res.action == Conflict.WriteBoth && !Moves(p, Conflict.ToLeft(res))
  }

  /** How one event counts, once lapsed keys are forgotten, `res` being what was decided. */
  ghost predicate Counts(cfg: Config, p: Pair, next: Pair, e: Event, res: Conflict.Resolution)
  {
    && Owed(cfg, next) + Noted(cfg, p) <= Owed(cfg, p) + Noted(cfg, next) + Loss(e)
    && (Moves(p, Conflict.ToLeft(res)) || Conflict.ToLeft(res) == map[] ==> Owed(cfg, next) <= Owed(cfg, p))
    && (!StuckOn(p, res) && !Quiescent(next) && !Lossy(e.fault) ==> Owed(cfg, next) <= Owed(cfg, p))
  }

  lemma AppliedCounts(cfg: Config, p: Pair, e: Event, res: Conflict.Resolution)
    requires Sendable(cfg, p, Conflict.ToLeft(res), Conflict.ToRight(res))
    ensures Counts(cfg, p, Applied(cfg, p, res, e), e, res)
  {
    var forLeft, forRight := Conflict.ToLeft(res), Conflict.ToRight(res);
    if res.action != Conflict.Escalate {
      WrittenCounts(cfg, p, forLeft, forRight, e);
      if !Moves(p, forLeft) && forLeft != map[] && !StuckOn(p, res) && !Lossy(e.fault) {
        OneSidedSettles(cfg, p, forLeft, e);
      }
    }
  }

  lemma EventCounts(cfg: Config, p: Pair, e: Event)
    ensures Counts(cfg, Forgetting(p, e.expired), Process(cfg, p, e), e, Decision(cfg, p))
    ensures Owed(cfg, Forgetting(p, e.expired)) == Owed(cfg, p)
  {
    var q := Forgetting(p, e.expired);
    DecisionIgnoresKeys(cfg, p, q);
    assert Pending(cfg, q) == Pending(cfg, p);
    if !e.suppressed {
      DecisionSends(cfg, q);
      AppliedCounts(cfg, q, e, Decision(cfg, q));
    }
  }

  /** With nothing for the right side, the left write fails or the pair is settled, as far as its keys go. */
  lemma OneSidedSettles(cfg: Config, p: Pair, forLeft: Fields, e: Event)
    requires !Moves(p, forLeft) && Carried(cfg, p.right, forLeft) && !Lossy(e.fault)
    ensures
      var next := Written(cfg, p, forLeft, map[], e);
      next == p || Quiescent(next)
  {
    assert Merge(p.left, forLeft) == p.left && Merge(p.right, map[]) == p.right;
  }

  // ---- whole runs ---------------------------------------------------------------------------------

  function Lapses(events: seq<Event>): nat
  {
    if |events| == 0 then 0 else Lapse(events[0]) + Lapses(events[1..])
  }

  function Losses(events: seq<Event>): nat
  {
    if |events| == 0 then 0 else Loss(events[0]) + Losses(events[1..])
  }

  /** Under way since `start`, with so many lapses and losses so far. */
  ghost predicate Since(cfg: Config, start: Pair, p: Pair, lapses: nat, losses: nat)
  {
    && Underway(cfg, p)
    && p.rightUpserts <= start.rightUpserts + losses && (losses == 0 ==> p.right == start.right)
    && Owed(cfg, p) <= Owed(cfg, start) + lapses + losses + Noted(cfg, p)
  }

  /** One upsert on the right, one more for each loss; on the left one more than there were fields to receive, and
      one more for each lapse or loss. */
  ghost predicate Bounded(cfg: Config, start: Pair, end: Pair, lapses: nat, losses: nat)
  {
    && end.leftUpserts <= Owed(cfg, start) + lapses + losses + 1
    && end.rightUpserts <= start.rightUpserts + losses + 1
    && (Quiescent(end) || (Underway(cfg, end) && (losses == 0 ==> end.right == start.right)))
  }

  /** Where a run from `start` may have come to. */
  ghost predicate OnTheWay(cfg: Config, start: Pair, p: Pair, lapses: nat, losses: nat)
  {
    Bounded(cfg, start, p, lapses, losses) && (Quiescent(p) || Since(cfg, start, p, lapses, losses))
  }

  lemma SinceIsOnTheWay(cfg: Config, start: Pair, p: Pair, lapses: nat, losses: nat)
    requires Since(cfg, start, p, lapses, losses)
    ensures OnTheWay(cfg, start, p, lapses, losses)
  {}

  lemma SetbackIsCounted(
    cfg: Config, start: Pair, p: Pair, next: Pair, lapses: nat, losses: nat, e: Event, res: Conflict.Resolution)
    requires Since(cfg, start, p, lapses, losses) && Progresses(cfg, p, next, e, res)
    requires Counts(cfg, Forgetting(p, e.expired), next, e, res) && Owed(cfg, Forgetting(p, e.expired)) == Owed(cfg, p)
    ensures OnTheWay(cfg, start, next, lapses + Lapse(e), losses + Loss(e))
  {
    NotedUnlessLapsed(cfg, p, e);
    assert Owed(cfg, next) <= Owed(cfg, start) + lapses + losses + Lapse(e) + Loss(e) + Noted(cfg, next);
    if !Quiescent(next) {
      assert Halts(cfg, p, next, Conflict.ToLeft(res), Conflict.ToRight(res), Lossy(e.fault));
      SinceIsOnTheWay(cfg, start, next, lapses + Lapse(e), losses + Loss(e));
    }
  }

  /** A record of the left side's state is lost only to a lapse. */
  lemma NotedUnlessLapsed(cfg: Config, p: Pair, e: Event)
    ensures Noted(cfg, p) <= Noted(cfg, Forgetting(p, e.expired)) + Lapse(e)
  {
    if e.expired == {} { assert Forgetting(p, e.expired) == p; }
  }

  /** Settled, or in a person's hands. */
  ghost predicate Clear(cfg: Config, p: Pair) { Quiescent(p) || Decision(cfg, p).action == Conflict.Escalate }

  predicate Clean(e: Event) { e.fault == NoFault && !e.suppressed }

  lemma EventIsBounded(cfg: Config, start: Pair, p: Pair, lapses: nat, losses: nat, e: Event)
    requires cfg.leftRef.connector != cfg.rightRef.connector && Since(cfg, start, p, lapses, losses)
    ensures OnTheWay(cfg, start, Process(cfg, p, e), lapses + Lapse(e), losses + Loss(e))
  {
    EventProgress(cfg, p, e);
    EventCounts(cfg, p, e);
    SetbackIsCounted(cfg, start, p, Process(cfg, p, e), lapses, losses, e, Decision(cfg, p));
  }

  lemma SettledStays(cfg: Config, start: Pair, p: Pair, lapses: nat, losses: nat, e: Event)
    requires OnTheWay(cfg, start, p, lapses, losses) && Quiescent(p)
    ensures OnTheWay(cfg, start, Process(cfg, p, e), lapses + Lapse(e), losses + Loss(e))
  {
    QuiescentStays(cfg, p, e);
  }

  function Fold(step: (Pair, Event) -> Pair, p: Pair, events: seq<Event>): Pair
    decreases events
  {
    if |events| == 0 then p else Fold(step, step(p, events[0]), events[1..])
  }

  lemma {:induction false} RunIsFold(cfg: Config, step: (Pair, Event) -> Pair, p: Pair, events: seq<Event>)
    requires forall q: Pair, e: Event :: step(q, e) == Process(cfg, q, e)
    ensures Run(cfg, p, events) == Fold(step, p, events)
    decreases events
  {
    if |events| > 0 { RunIsFold(cfg, step, step(p, events[0]), events[1..]); }
  }

  ghost predicate KeptBy(
    step: (Pair, Event) -> Pair, good: (Pair, nat, nat) -> bool, p: Pair, lapses: nat, losses: nat, e: Event)
  {
    good(p, lapses, losses) ==> good(step(p, e), lapses + Lapse(e), losses + Loss(e))
  }

  /** What every event keeps, counting lapses and losses, every run keeps. */
  lemma {:induction false} FoldKeeps(
    step: (Pair, Event) -> Pair, good: (Pair, nat, nat) -> bool, p: Pair, lapses: nat, losses: nat, events: seq<Event>)
    requires good(p, lapses, losses)
    requires forall q: Pair, m: nat, n: nat, e: Event :: KeptBy(step, good, q, m, n, e)
    ensures good(Fold(step, p, events), lapses + Lapses(events), losses + Losses(events))
    decreases events
  {
    if |events| > 0 {
      var e := events[0];
      assert KeptBy(step, good, p, lapses, losses, e);
      FoldKeeps(step, good, step(p, e), lapses + Lapse(e), losses + Loss(e), events[1..]);
    }
  }

  lemma EventIsKept(cfg: Config, start: Pair, p: Pair, lapses: nat, losses: nat, e: Event)
    requires cfg.leftRef.connector != cfg.rightRef.connector && OnTheWay(cfg, start, p, lapses, losses)
    ensures OnTheWay(cfg, start, Process(cfg, p, e), lapses + Lapse(e), losses + Loss(e))
  {
    if Quiescent(p) {
      SettledStays(cfg, start, p, lapses, losses, e);
    } else {
      EventIsBounded(cfg, start, p, lapses, losses, e);
    }
  }

  lemma EveryEventIsKept(cfg: Config, start: Pair, step: (Pair, Event) -> Pair, good: (Pair, nat, nat) -> bool)
    requires cfg.leftRef.connector != cfg.rightRef.connector
    requires forall q: Pair, e: Event :: step(q, e) == Process(cfg, q, e)
    requires forall q: Pair, m: nat, n: nat :: good(q, m, n) == OnTheWay(cfg, start, q, m, n)
    ensures forall q: Pair, m: nat, n: nat, e: Event :: KeptBy(step, good, q, m, n, e)
  {
    forall q: Pair, m: nat, n: nat, e: Event
      ensures KeptBy(step, good, q, m, n, e)
    {
      if good(q, m, n) { EventIsKept(cfg, start, q, m, n, e); }
    }
  }

  lemma RunIsBounded(cfg: Config, start: Pair, p: Pair, lapses: nat, losses: nat, events: seq<Event>)
    requires cfg.leftRef.connector != cfg.rightRef.connector && OnTheWay(cfg, start, p, lapses, losses)
    ensures OnTheWay(cfg, start, Run(cfg, p, events), lapses + Lapses(events), losses + Losses(events))
  {
    var step := (q: Pair, e: Event) => Process(cfg, q, e);
    var good := (q: Pair, m: nat, n: nat) => OnTheWay(cfg, start, q, m, n);
    EveryEventIsKept(cfg, start, step, good);
    FoldKeeps(step, good, p, lapses, losses, events);
    RunIsFold(cfg, step, p, events);
  }

  lemma CleanEventClears(cfg: Config, p: Pair, e: Event)
    requires cfg.leftRef.connector != cfg.rightRef.connector && (Quiescent(p) || Underway(cfg, p)) && Clean(e)
    ensures Clear(cfg, Process(cfg, p, e))
  {
    if Quiescent(p) {
      QuiescentStays(cfg, p, e);
    } else {
      EventProgress(cfg, p, e);
      if SamePair(Process(cfg, p, e), p) { DecisionIgnoresKeys(cfg, Process(cfg, p, e), p); }
    }
  }

  /** Whatever fails or gets lost, however often and however late: over any run the right side gets at most one
      upsert, plus one for each loss, and the left side at most one more than it had fields to receive, plus one
      for each loss and each time keys lapsed. */
  lemma LoopStopsUnderFailures(cfg: Config, start: Pair, p: Pair, lapses: nat, losses: nat, events: seq<Event>)
    requires cfg.leftRef.connector != cfg.rightRef.connector && Since(cfg, start, p, lapses, losses)
    ensures OnTheWay(cfg, start, Run(cfg, p, events), lapses + Lapses(events), losses + Losses(events))
  {
    SinceIsOnTheWay(cfg, start, p, lapses, losses);
    RunIsBounded(cfg, start, p, lapses, losses, events);
  }

  /** A run that ends in an event handled without a fault ends settled, or with the pair in a person's hands. */
  lemma CleanRunClears(cfg: Config, start: Pair, p: Pair, lapses: nat, losses: nat, init: seq<Event>, last: Event)
    requires cfg.leftRef.connector != cfg.rightRef.connector && OnTheWay(cfg, start, p, lapses, losses) && Clean(last)
    ensures Clear(cfg, Run(cfg, p, init + [last]))
  {
    RunIsBounded(cfg, start, p, lapses, losses, init);
    CleanEventClears(cfg, Run(cfg, p, init), last);
    RunSnoc(cfg, p, init, last);
  }

  lemma RunSnoc(cfg: Config, p: Pair, init: seq<Event>, last: Event)
    ensures Run(cfg, p, init + [last]) == Process(cfg, Run(cfg, p, init), last)
  {
    RunAppend(cfg, p, init, [last]);
    assert [last][1..] == [];
  }

  /** A pair with nothing on record may start such a run. */
  lemma FreshStart(cfg: Config, p: Pair)
    requires NoPriorKey(cfg, p)
    ensures Since(cfg, p, p, 0, 0)
  {
    FreshIsUnderway(cfg, p);
  }

  // ---- when left writes are bounded, as long as every failure is answered -----------------------------

  ghost predicate Answered(events: seq<Event>) { forall i :: 0 <= i < |events| ==> !Lossy(events[i].fault) }

  ghost predicate NeverStuck(cfg: Config, p: Pair, events: seq<Event>)
    decreases events
  {
    !Stuck(cfg, p) && (|events| > 0 ==> NeverStuck(cfg, Process(cfg, p, events[0]), events[1..]))
  }

  /** A run that is never stuck sends the left side no more than it has fields to receive, and one. */
  lemma {:induction false} UnstuckIsBounded(cfg: Config, p: Pair, events: seq<Event>)
    requires cfg.leftRef.connector != cfg.rightRef.connector && Underway(cfg, p)
    requires NeverStuck(cfg, p, events) && Answered(events)
    ensures Run(cfg, p, events).leftUpserts <= Owed(cfg, p) + 1
    decreases events
  {
    if |events| > 0 {
      var next := Process(cfg, p, events[0]);
      EventProgress(cfg, p, events[0]);
      EventCounts(cfg, p, events[0]);
      if Quiescent(next) {
        QuiescentForever(cfg, next, events[1..]);
      } else {
        UnstuckIsBounded(cfg, next, events[1..]);
      }
    }
  }

  /** The event that repeats a stuck write: the record of it has lapsed and the right side fails again. */
  function Again(cfg: Config, p: Pair): Event
  {
    var toRight := KeyFor(cfg, Right, Merge(p.right, Conflict.ToRight(Decision(cfg, p))));
    Event(Left, false, RightFails, p.leftAt, {KeyFor(cfg, Left, p.left), toRight})
  }

  lemma StuckRepeats(cfg: Config, p: Pair)
    requires cfg.leftRef.connector != cfg.rightRef.connector && Stuck(cfg, p) && Underway(cfg, p)
    ensures
      var next := Process(cfg, p, Again(cfg, p));
      SamePair(next, p.(leftUpserts := p.leftUpserts + 1)) && Underway(cfg, next) && Stuck(cfg, next)
  {
    var e := Again(cfg, p);
    var q := Forgetting(p, e.expired);
    ForgettingUnderway(cfg, p, e.expired);
    DecisionIgnoresKeys(cfg, p, q);
    BothAreSent(cfg, p);
    DecisionSends(cfg, p);
    RepeatedWrite(cfg, q, Decision(cfg, p), e);
    SameDecision(cfg, p, Process(cfg, p, e));
  }

  lemma SameDecision(cfg: Config, p: Pair, next: Pair)
    requires SamePair(next, p.(leftUpserts := p.leftUpserts + 1))
    ensures Decision(cfg, next) == Decision(cfg, p)
  {}

  /** Sent once more, the values land, the right side fails, and all that changed is the count and the record. */
  lemma RepeatedWrite(cfg: Config, p: Pair, res: Conflict.Resolution, e: Event)
    requires cfg.leftRef.connector != cfg.rightRef.connector && Underway(cfg, p) && res.action == Conflict.WriteBoth
    requires Carried(cfg, p.right, Conflict.ToLeft(res)) && !Moves(p, Conflict.ToLeft(res))
    requires Conflict.ToLeft(res) != map[] && Conflict.ToRight(res) != map[] && e.fault == RightFails
    requires e.at == p.leftAt
    requires KeyFor(cfg, Left, p.left) !in p.committed
    requires KeyFor(cfg, Right, Merge(p.right, Conflict.ToRight(res))) !in p.committed
    ensures SamePair(Applied(cfg, p, res, e), p.(leftUpserts := p.leftUpserts + 1))
    ensures Underway(cfg, Applied(cfg, p, res, e))
  {
    var forLeft, forRight := Conflict.ToLeft(res), Conflict.ToRight(res);
    assert Merge(p.left, forLeft) == p.left;
    LandingUnderway(cfg, p, Left, forLeft, e.at);
    KeysOfSidesDiffer(cfg, Left, p.left, Merge(p.right, forRight));
    HalfWrite(cfg, p, forLeft, forRight, e);
  }

  /** Both writes would call, and the right one fails. */
  lemma HalfWrite(cfg: Config, p: Pair, forLeft: Fields, forRight: Fields, e: Event)
    requires forLeft != map[] && forRight != map[] && e.fault == RightFails
    requires KeyFor(cfg, Left, Merge(p.left, forLeft)) !in p.committed
    requires KeyFor(cfg, Right, Merge(p.right, forRight)) !in p.committed
    requires KeyFor(cfg, Left, Merge(p.left, forLeft)) != KeyFor(cfg, Right, Merge(p.right, forRight))
    ensures Written(cfg, p, forLeft, forRight, e)
         == Landed(p, Left, forLeft, e.at, KeyFor(cfg, Left, Merge(p.left, forLeft)))
  {}

  lemma BothAreSent(cfg: Config, p: Pair)
    requires Decision(cfg, p).action == Conflict.WriteBoth
    ensures Conflict.ToLeft(Decision(cfg, p)) != map[] && Conflict.ToRight(Decision(cfg, p)) != map[]
  {
    BothNonEmpty(cfg.resolver, LeftState(cfg, p), RightState(cfg, p), cfg.names,
                 Conflict.Undecided(cfg.resolver, LeftState(cfg, p), RightState(cfg, p), cfg.names));
  }

  lemma BothNonEmpty(
    r: Conflict.Resolver, left: Conflict.State, right: Conflict.State, names: seq<string>, res: Conflict.Resolution)
    requires Conflict.Blank(res) && Conflict.Decide(r, left, right, names, res).action == Conflict.WriteBoth
    ensures res.situation == Conflict.BothChanged
    ensures Conflict.ToLeft(Conflict.Decide(r, left, right, names, res)) != map[]
    ensures Conflict.ToRight(Conflict.Decide(r, left, right, names, res)) != map[]
  {}

  lemma {:induction false} RunAppend(cfg: Config, p: Pair, a: seq<Event>, b: seq<Event>)
    ensures Run(cfg, p, a + b) == Run(cfg, Run(cfg, p, a), b)
    decreases a
  {
    if |a| == 0 {
      assert a + b == b;
    } else {
      assert (a + b)[1..] == a[1..] + b;
      RunAppend(cfg, Process(cfg, p, a[0]), a[1..], b);
    }
  }

  /** From a stuck pair the left side can be written any number of times. */
  lemma {:induction false} StuckForever(cfg: Config, p: Pair, n: nat) returns (events: seq<Event>)
    requires cfg.leftRef.connector != cfg.rightRef.connector && Stuck(cfg, p) && Underway(cfg, p)
    ensures Run(cfg, p, events).leftUpserts == p.leftUpserts + n && Answered(events)
    decreases n
  {
    events := [];
    if n > 0 {
      StuckRepeats(cfg, p);
      var rest := StuckForever(cfg, Process(cfg, p, Again(cfg, p)), n - 1);
      events := [Again(cfg, p)] + rest;
      assert events[1..] == rest;
    }
  }

  /** Some run lands `n` more upserts on the left. */
  ghost predicate Reaches(cfg: Config, p: Pair, n: nat)
  {
    exists events :: Answered(events) && Run(cfg, p, events).leftUpserts >= p.leftUpserts + n
  }

  ghost predicate MayGetStuck(cfg: Config, p: Pair)
  {
    exists events :: Answered(events) && Stuck(cfg, Run(cfg, p, events))
  }

  /** What may get stuck later may get stuck. */
  lemma StuckLater(cfg: Config, p: Pair, e: Event)
    requires !Lossy(e.fault) && MayGetStuck(cfg, Process(cfg, p, e))
    ensures MayGetStuck(cfg, p)
  {
    var rest :| Answered(rest) && Stuck(cfg, Run(cfg, Process(cfg, p, e), rest));
    StuckAfter(cfg, p, e, rest);
  }

  lemma StuckAfter(cfg: Config, p: Pair, e: Event, rest: seq<Event>)
    requires !Lossy(e.fault) && Answered(rest) && Stuck(cfg, Run(cfg, Process(cfg, p, e), rest))
    ensures MayGetStuck(cfg, p)
  {
    var events := [e] + rest;
    assert events[0] == e && events[1..] == rest;
    assert Answered(events);
    assert Run(cfg, p, events) == Run(cfg, Process(cfg, p, e), rest);
  }

  lemma StuckNow(cfg: Config, p: Pair)
    requires Stuck(cfg, p)
    ensures MayGetStuck(cfg, p)
  {
    assert Answered([]) && Run(cfg, p, []) == p;
  }

  lemma {:induction false} StaysUnstuck(cfg: Config, p: Pair, events: seq<Event>)
    requires !MayGetStuck(cfg, p) && Answered(events)
    ensures NeverStuck(cfg, p, events)
    decreases events
  {
    if Stuck(cfg, p) { StuckNow(cfg, p); }
    if |events| > 0 {
      if MayGetStuck(cfg, Process(cfg, p, events[0])) { StuckLater(cfg, p, events[0]); }
      StaysUnstuck(cfg, Process(cfg, p, events[0]), events[1..]);
    }
  }

  /** The left side of a pair nobody edits any more can be written without limit if and only if some run
      gets it stuck. */
  lemma UnboundedIffStuck(cfg: Config, p: Pair)
    requires cfg.leftRef.connector != cfg.rightRef.connector && Underway(cfg, p)
    ensures (forall n: nat :: Reaches(cfg, p, n)) <==> MayGetStuck(cfg, p)
  {
    if MayGetStuck(cfg, p) {
      forall n: nat
        ensures Reaches(cfg, p, n)
      {
        ReachesAny(cfg, p, n);
      }
    } else {
      var n := |Pending(cfg, p)| + 2;
      if Reaches(cfg, p, n) {
        var events :| Answered(events) && Run(cfg, p, events).leftUpserts >= p.leftUpserts + n;
        StaysUnstuck(cfg, p, events);
        UnstuckIsBounded(cfg, p, events);
      }
    }
  }

  lemma ReachesAny(cfg: Config, p: Pair, n: nat)
    requires cfg.leftRef.connector != cfg.rightRef.connector && Underway(cfg, p) && MayGetStuck(cfg, p)
    ensures Reaches(cfg, p, n)
  {
    var events :| Answered(events) && Stuck(cfg, Run(cfg, p, events));
    StuckIsUnderway(cfg, p, events);
    var more := StuckForever(cfg, Run(cfg, p, events), p.leftUpserts + n);
    RunAppend(cfg, p, events, more);
    assert Answered(events + more);
  }

  lemma StuckIsUnderway(cfg: Config, p: Pair, events: seq<Event>)
    requires cfg.leftRef.connector != cfg.rightRef.connector && Underway(cfg, p) && Stuck(cfg, Run(cfg, p, events))
    ensures Underway(cfg, Run(cfg, p, events))
  {
    LoopStopsUnderFailures(cfg, p, p, 0, 0, events);
    if Quiescent(Run(cfg, p, events)) { QuiescentDecision(cfg, Run(cfg, p, events)); }
  }

  // ---- when the right side has every mapped field --------------------------------------------------

  lemma DecideMoves(cfg: Config, left: Conflict.State, right: Conflict.State, res: Conflict.Resolution)
    requires Conflict.Blank(res) && res.diffs == Conflict.DiffOf(left, right, Ordering.Sort(Self, cfg.names))
    requires Conflict.AllPresent(right.fields, cfg.names)
    requires Conflict.ToLeft(Conflict.Decide(cfg.resolver, left, right, cfg.names, res)) != map[]
    ensures exists f ::
      && f in Conflict.ToLeft(Conflict.Decide(cfg.resolver, left, right, cfg.names, res))
      && !Arrived(left.fields, right.fields, f)
  {
    var sent := Conflict.ToLeft(Conflict.Decide(cfg.resolver, left, right, cfg.names, res));
    DecideResolvesOrGoesOneWay(cfg.resolver, left, right, cfg.names, res);
    ConflictSettlesOrGoesOneWay(cfg.resolver, left, right, cfg.names, res);
    if sent == Conflict.Pick(right.fields, cfg.names) {
      FirstDiffers(cfg, left, right, res.diffs);
    } else {
      var f :| f in sent;
      SentDiffers(cfg, left, right, Conflict.ByPolicy(cfg.resolver, left, right), res, f);
      SentDiffers(cfg, left, right, Conflict.ByMerge(left, right), res.(policy := Conflict.FieldLevel), f);
    }
  }

  lemma FirstDiffers(cfg: Config, left: Conflict.State, right: Conflict.State, diffs: seq<Conflict.FieldDiff>)
    requires diffs == Conflict.DiffOf(left, right, Ordering.Sort(Self, cfg.names)) && |diffs| > 0
    requires Conflict.AllPresent(right.fields, cfg.names)
    ensures exists f :: f in Conflict.Pick(right.fields, cfg.names) && !Arrived(left.fields, right.fields, f)
  {
    Conflict.NoDiffsIff(left, right, cfg.names);
    var f :| f in cfg.names && !SameField(left.fields, right.fields, f);
    assert f in Conflict.Pick(right.fields, cfg.names) && !Arrived(left.fields, right.fields, f);
  }

  lemma SentDiffers(
    cfg: Config, left: Conflict.State, right: Conflict.State, choose: Conflict.FieldDiff -> Conflict.Choice,
    res: Conflict.Resolution, f: string)
    requires Conflict.Blank(res) && res.diffs == Conflict.DiffOf(left, right, Ordering.Sort(Self, cfg.names))
    requires Conflict.AllPresent(right.fields, cfg.names)
    ensures f in Conflict.ToLeft(Conflict.Settled(res, choose)) ==> !Arrived(left.fields, right.fields, f)
  {
    Conflict.SettledWrites(res, choose);
    Conflict.ForLeftMembers(choose, res.diffs, f);
    Conflict.DiffFor(left, right, cfg.names, f);
  }

  lemma PresentMoves(cfg: Config, p: Pair)
    requires Conflict.AllPresent(p.right, cfg.names)
    ensures Moves(p, Conflict.ToLeft(Decision(cfg, p))) || Conflict.ToLeft(Decision(cfg, p)) == map[]
    ensures !Stuck(cfg, p)
  {
    var left, right := LeftState(cfg, p), RightState(cfg, p);
    if Conflict.ToLeft(Decision(cfg, p)) != map[] {
      DecideMoves(cfg, left, right, Conflict.Undecided(cfg.resolver, left, right, cfg.names));
    } else if Decision(cfg, p).action == Conflict.WriteBoth {
      BothAreSent(cfg, p);
    }
  }

  /** If the right side has every mapped field, the left side is never sent more upserts than it has fields
      to receive, whatever fails, gets lost or lapses. */
  lemma {:induction false} PresentIsBounded(cfg: Config, p: Pair, events: seq<Event>)
    requires cfg.leftRef.connector != cfg.rightRef.connector && Underway(cfg, p)
    requires Conflict.AllPresent(p.right, cfg.names)
    ensures Run(cfg, p, events).leftUpserts <= Owed(cfg, p)
    decreases events
  {
    if |events| > 0 {
      var next := Process(cfg, p, events[0]);
      EventProgress(cfg, p, events[0]);
      EventCounts(cfg, p, events[0]);
      PresentMoves(cfg, p);
      if Quiescent(next) {
        QuiescentForever(cfg, next, events[1..]);
      } else {
        PresentIsBounded(cfg, next, events[1..]);
      }
    }
  }

  // ---- where the loop ends -----------------------------------------------------------------------------

  /** Field-level resolution with every value present and no field edited differently on both sides. */
  ghost predicate Mergeable(cfg: Config, p: Pair)
  {
    && p.leftSnap.Some? && p.rightSnap.Some? && AgreeOn(p.leftSnap.value, p.rightSnap.value, cfg.names)
    && Conflict.AllPresent(p.left, cfg.names) && Conflict.AllPresent(p.right, cfg.names)
    && Conflict.AllPresent(p.leftSnap.value, cfg.names)
    && forall f :: f in cfg.names ==>
         && Conflict.Governs(cfg.resolver, Conflict.FieldLevel, f)
         && (p.left[f] == p.leftSnap.value[f] || p.right[f] == p.leftSnap.value[f] || p.left[f] == p.right[f])
  }

  lemma MergeableStates(cfg: Config, p: Pair)
    requires Mergeable(cfg, p)
    ensures Conflict.MergeInput(cfg.resolver, LeftState(cfg, p), RightState(cfg, p), cfg.names)
    ensures forall f :: f in cfg.names ==> !Conflict.Contested(LeftState(cfg, p), RightState(cfg, p), f)
  {}

  function Merged(p: Pair, f: string): Value
  {
    var base := if p.leftSnap.Some? then p.leftSnap.value else map[];
    Conflict.ThreeWay(Conflict.At(base, f), Conflict.At(p.left, f), Conflict.At(p.right, f))
  }

  /** Both sides hold the three-way merge of what they held in `p`. */
  ghost predicate HoldMerge(cfg: Config, p: Pair, end: Pair)
  {
    forall f :: f in cfg.names ==> f in end.left && f in end.right && end.left[f] == end.right[f] == Merged(p, f)
  }

  /** What field-level resolution decides brings both sides to the merge. */
  lemma MergeDecided(cfg: Config, p: Pair)
    requires Mergeable(cfg, p) && |cfg.names| > 0
    ensures Decision(cfg, p).action != Conflict.Escalate
    ensures forall f :: f in cfg.names ==>
      && f in p.left && f in p.right
      && Merge(p.left, Conflict.ToLeft(Decision(cfg, p)))[f] == Merged(p, f)
      && Merge(p.right, Conflict.ToRight(Decision(cfg, p)))[f] == Merged(p, f)
  {
    MergeableStates(cfg, p);
    Conflict.FieldLevelIsThreeWayMerge(cfg.resolver, LeftState(cfg, p), RightState(cfg, p), cfg.names);
  }

  /** Each side holds, of each field, what it held or what it is to hold. */
  ghost predicate PartMerged(cfg: Config, p: Pair, next: Pair)
  {
    forall f :: f in cfg.names ==>
      && f in next.left && next.left[f] in {Conflict.At(p.left, f), Merged(p, f)}
      && f in next.right && next.right[f] in {Conflict.At(p.right, f), Merged(p, f)}
  }

  /** A merge cut short leaves the same merge to be completed. */
  lemma HalfMerged(cfg: Config, p: Pair, next: Pair)
    requires Mergeable(cfg, p) && PartMerged(cfg, p, next)
    requires next.leftSnap == p.leftSnap && next.rightSnap == p.rightSnap
    ensures Mergeable(cfg, next)
    ensures forall f :: f in cfg.names ==> Merged(next, f) == Merged(p, f)
  {
    forall f | f in cfg.names
      ensures f in next.left && f in next.right && Merged(next, f) == Merged(p, f)
      ensures || next.left[f] == p.leftSnap.value[f] || next.right[f] == p.leftSnap.value[f]
              || next.left[f] == next.right[f]
    {
      HalfMergedField(p.leftSnap.value[f], p.left[f], p.right[f], next.left[f], next.right[f]);
    }
  }

  /** One field: part merged, it is uncontested and merges to the same value. */
  lemma HalfMergedField(base: Value, left: Value, right: Value, left': Value, right': Value)
    requires left == base || right == base || left == right
    requires left' in {left, Conflict.ThreeWay(base, left, right)}
    requires right' in {right, Conflict.ThreeWay(base, left, right)}
    ensures left' == base || right' == base || left' == right'
    ensures Conflict.ThreeWay(base, left', right') == Conflict.ThreeWay(base, left, right)
  {}

  /** The merge is complete, or as far off as before with the same result to come. */
  ghost predicate NearerMerge(cfg: Config, p: Pair, next: Pair, e: Event)
  {
    || (Quiescent(next) && HoldMerge(cfg, p, next))
    || (&& Underway(cfg, next) && Mergeable(cfg, next) && !(e.fault == NoFault && !e.suppressed)
        && forall f :: f in cfg.names ==> Merged(next, f) == Merged(p, f))
  }

  lemma MergeStep(cfg: Config, p: Pair, next: Pair, e: Event, res: Conflict.Resolution)
    requires Mergeable(cfg, p) && Progresses(cfg, p, next, e, res) && res.action != Conflict.Escalate
    requires forall f :: f in cfg.names ==>
      && f in p.left && f in p.right
      && Merge(p.left, Conflict.ToLeft(res))[f] == Merged(p, f)
      && Merge(p.right, Conflict.ToRight(res))[f] == Merged(p, f)
    ensures NearerMerge(cfg, p, next, e)
  {
    var forLeft, forRight := Conflict.ToLeft(res), Conflict.ToRight(res);
    if !Settles(p, next, forLeft, forRight) {
      forall f | f in cfg.names
        ensures f in next.left && next.left[f] in {Conflict.At(p.left, f), Merged(p, f)}
        ensures f in next.right && next.right[f] in {Conflict.At(p.right, f), Merged(p, f)}
      {
        assert f in Merge(p.left, forLeft) && f in Merge(p.right, forRight);
      }
      HalfMerged(cfg, p, next);
    }
  }

  lemma MergeEvent(cfg: Config, p: Pair, e: Event)
    requires cfg.leftRef.connector != cfg.rightRef.connector && Underway(cfg, p) && Mergeable(cfg, p) && |cfg.names| > 0
    ensures NearerMerge(cfg, p, Process(cfg, p, e), e)
  {
    EventProgress(cfg, p, e);
    MergeDecided(cfg, p);
    MergeStep(cfg, p, Process(cfg, p, e), e, Decision(cfg, p));
  }

  lemma {:induction false} SettledKeepsMerge(cfg: Config, p: Pair, next: Pair, events: seq<Event>)
    requires Quiescent(next) && HoldMerge(cfg, p, next)
    ensures Quiescent(Run(cfg, next, events)) && HoldMerge(cfg, p, Run(cfg, next, events))
  {
    QuiescentForever(cfg, next, events);
  }

  /** And it stops in the right place: under field-level resolution, whatever fails on the way, a run that
      ends in an event handled without a fault leaves both peers with the three-way merge of what they held. */
  lemma {:induction false} LoopEndsInTheMerge(cfg: Config, p: Pair, events: seq<Event>)
    requires cfg.leftRef.connector != cfg.rightRef.connector && Underway(cfg, p) && Mergeable(cfg, p) && |cfg.names| > 0
    requires |events| > 0 && events[|events| - 1].fault == NoFault && !events[|events| - 1].suppressed
    ensures Quiescent(Run(cfg, p, events)) && HoldMerge(cfg, p, Run(cfg, p, events))
    decreases events
  {
    var next := Process(cfg, p, events[0]);
    MergeEvent(cfg, p, events[0]);
    if Quiescent(next) && HoldMerge(cfg, p, next) {
      SettledKeepsMerge(cfg, p, next, events[1..]);
    } else {
      assert |events| > 1;
      LoopEndsInTheMerge(cfg, next, events[1..]);
      SameMergeHeld(cfg, p, next, Run(cfg, next, events[1..]));
    }
  }

  lemma SameMergeHeld(cfg: Config, p: Pair, next: Pair, end: Pair)
    requires HoldMerge(cfg, next, end) && forall f :: f in cfg.names ==> Merged(next, f) == Merged(p, f)
    ensures HoldMerge(cfg, p, end)
  {}
}
