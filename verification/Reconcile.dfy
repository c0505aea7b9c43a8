/** Reconciling a linked pair on a bidirectional sync (internal/engine/pipeline.go): read both
    sides, resolve, write through the idempotency cache, and record both snapshots. */
module Reconcile {
  import opened Wrappers
  import opened Model
  import opened Digest
  import Ordering
  import Conflict

  datatype Config = Config(
    sync: string, kind: string, leftRef: Ref, rightRef: Ref, names: seq<string>, resolver: Conflict.Resolver)

  /** The two peers' records, the stored snapshots, the committed idempotency keys, and how
      many upserts have reached each peer. */
  datatype Pair = Pair(
    left: Fields, leftAt: int, leftSnap: Option<Fields>,
    right: Fields, rightAt: int, rightSnap: Option<Fields>,
    committed: set<Hash>, leftUpserts: nat, rightUpserts: nat)

  /** A peer may answer an upsert with a failure, which is then known not to have landed; or the upsert lands
      and its response is lost, or the engine crashes before it has recorded the response; or it crashes with
      both writes recorded and the snapshots not. */
  datatype Fault = NoFault | LeftFails | RightFails | LeftLost | RightLost | NotRecorded

  predicate Lossy(fault: Fault) { fault == LeftLost || fault == RightLost || fault == NotRecorded }

  /** One inbound change of either side, carrying the record as it is now. The origin log may
      recognise it as an echo or may have forgotten; both are allowed at any time. `at` is the
      modification time the peers would stamp an upsert with, and `expired` the idempotency keys whose
      lifetime has ended since the event before. */
  datatype Event = Event(from: Side, suppressed: bool, fault: Fault, at: int, expired: set<Hash>)

  function StateOf(cfg: Config, fields: Fields, snap: Option<Fields>, at: int): Conflict.State
  {
    match snap
    case None => Conflict.State(fields, SnapshotHash(fields, cfg.names), map[], NoHash, at)
    case Some(base) =>
      Conflict.State(fields, SnapshotHash(fields, cfg.names), base, SnapshotHash(base, cfg.names), at)
  }

  function LeftState(cfg: Config, p: Pair): Conflict.State { StateOf(cfg, p.left, p.leftSnap, p.leftAt) }

  function RightState(cfg: Config, p: Pair): Conflict.State { StateOf(cfg, p.right, p.rightSnap, p.rightAt) }

  function Decision(cfg: Config, p: Pair): Conflict.Resolution
  {
    Conflict.Resolve(cfg.resolver, LeftState(cfg, p), RightState(cfg, p), cfg.names)
  }

  /** The key of a write: it digests the state the target is predicted to end up in. */
  function WriteKey(cfg: Config, side: Side, current: Fields, values: Fields): Hash
  {
    var payload := SnapshotHash(Merge(current, values), cfg.names).preimage;
    if side == Left then IdemKey(cfg.sync, cfg.kind, cfg.rightRef, cfg.leftRef, payload)
    else IdemKey(cfg.sync, cfg.kind, cfg.leftRef, cfg.rightRef, payload)
  }

  function Of(p: Pair, side: Side): Fields { if side == Left then p.left else p.right }

  /** The peer overlays the values. */
  function Upserted(p: Pair, side: Side, values: Fields, at: int): Pair
  {
    if side == Left then p.(left := Merge(p.left, values), leftAt := at, leftUpserts := p.leftUpserts + 1)
    else p.(right := Merge(p.right, values), rightAt := at, rightUpserts := p.rightUpserts + 1)
  }

  function Landed(p: Pair, side: Side, values: Fields, at: int, key: Hash): Pair
  {
    Upserted(p, side, values, at).(committed := p.committed + {key})
  }

  /** Nothing to say makes no call, and a key committed before is replayed without one. An intent whose outcome
      was never learned does not count as committed: with a known target the call is made again. */
  predicate Calls(cfg: Config, p: Pair, side: Side, values: Fields)
  {
    values != map[] && WriteKey(cfg, side, Of(p, side), values) !in p.committed
  }

  /** One write that gets its answer: the peer overlays the values and the key is committed. */
  function Write(cfg: Config, p: Pair, side: Side, values: Fields, at: int): Pair
  {
    if Calls(cfg, p, side, values) then Landed(p, side, values, at, WriteKey(cfg, side, Of(p, side), values)) else p
  }

  /** Would this write fail, or get lost, under the fault? Only a write that makes a call can. */
  predicate Fails(cfg: Config, p: Pair, side: Side, values: Fields, fault: Fault)
  {
    fault == (if side == Left then LeftFails else RightFails) && Calls(cfg, p, side, values)
  }

  predicate Loses(cfg: Config, p: Pair, side: Side, values: Fields, fault: Fault)
  {
    fault == (if side == Left then LeftLost else RightLost) && Calls(cfg, p, side, values)
  }

  /** The left write comes first; an error returns before anything is recorded. */
  function Written(cfg: Config, p: Pair, forLeft: Fields, forRight: Fields, e: Event): Pair
  {
    if Fails(cfg, p, Left, forLeft, e.fault) then p
    else if Loses(cfg, p, Left, forLeft, e.fault) then Upserted(p, Left, forLeft, e.at)
    else
      var p1 := Write(cfg, p, Left, forLeft, e.at);
      RightHalf(cfg, p1, forRight, e, Merge(p.left, forLeft), Merge(p.right, forRight))
  }

  /** The second write, and then both snapshots. */
  function RightHalf(cfg: Config, p: Pair, forRight: Fields, e: Event, leftFinal: Fields, rightFinal: Fields): Pair
  {
    if Fails(cfg, p, Right, forRight, e.fault) then p
    else if Loses(cfg, p, Right, forRight, e.fault) then Upserted(p, Right, forRight, e.at)
    else Recorded(Write(cfg, p, Right, forRight, e.at), e.fault, leftFinal, rightFinal)
  }

  function Recorded(p: Pair, fault: Fault, leftFinal: Fields, rightFinal: Fields): Pair
  {
    if fault == NotRecorded then p else p.(leftSnap := Some(leftFinal), rightSnap := Some(rightFinal))
  }

  function Applied(cfg: Config, p: Pair, res: Conflict.Resolution, e: Event): Pair
  {
    if res.action == Conflict.Escalate then p
    else Written(cfg, p, Conflict.ToLeft(res), Conflict.ToRight(res), e)
  }

  function Reconciled(cfg: Config, p: Pair, e: Event): Pair { Applied(cfg, p, Decision(cfg, p), e) }

  function Forgetting(p: Pair, expired: set<Hash>): Pair { p.(committed := p.committed - expired) }

  function Process(cfg: Config, p: Pair, e: Event): Pair
  {
    var p := Forgetting(p, e.expired);
    if e.suppressed then p else Reconciled(cfg, p, e)
  }

  function Run(cfg: Config, p: Pair, events: seq<Event>): Pair
    decreases events
  {
    if |events| == 0 then p else Run(cfg, Process(cfg, p, events[0]), events[1..])
  }

  /** The engine's part of the work, step by step: `write`, `commitPair` and `reconcile`. */
  class LinkedPair {
    const cfg: Config
    var left: Fields
    var leftAt: int
    var leftSnap: Option<Fields>
    var right: Fields
    var rightAt: int
    var rightSnap: Option<Fields>
    var committed: set<Hash>
    var leftUpserts: nat
    var rightUpserts: nat

    constructor (cfg: Config, p: Pair)
      ensures this.cfg == cfg && State() == p
    {
      this.cfg := cfg;
      left, leftAt, leftSnap := p.left, p.leftAt, p.leftSnap;
      right, rightAt, rightSnap := p.right, p.rightAt, p.rightSnap;
      committed, leftUpserts, rightUpserts := p.committed, p.leftUpserts, p.rightUpserts;
    }

    ghost function State(): Pair
      reads this
    {
      Pair(left, leftAt, leftSnap, right, rightAt, rightSnap, committed, leftUpserts, rightUpserts)
    }

    method WriteTo(side: Side, values: Fields, at: int, fault: Fault) returns (ok: bool)
      modifies this
      ensures ok <==> !Fails(cfg, old(State()), side, values, fault) && !Loses(cfg, old(State()), side, values, fault)
      ensures State() ==
        if Fails(cfg, old(State()), side, values, fault) then old(State())
        else if Loses(cfg, old(State()), side, values, fault) then Upserted(old(State()), side, values, at)
        else Write(cfg, old(State()), side, values, at)
    {
      if values == map[] { return true; }
      var current := if side == Left then left else right;
      var key := WriteKey(cfg, side, current, values);
      if key in committed { return true; }
      if fault == (if side == Left then LeftFails else RightFails) { return false; }
      Land(side, values, at);
      if fault == (if side == Left then LeftLost else RightLost) { return false; }
      committed := committed + {key};
      ok := true;
    }

    /** The upsert reaches the peer. */
    method Land(side: Side, values: Fields, at: int)
      modifies this
      ensures State() == Upserted(old(State()), side, values, at)
    {
      if side == Left {
        left, leftAt, leftUpserts := Merge(left, values), at, leftUpserts + 1;
      } else {
        right, rightAt, rightUpserts := Merge(right, values), at, rightUpserts + 1;
      }
    }

    method CommitPair(leftValues: Fields, rightValues: Fields)
      modifies this`leftSnap, this`rightSnap
      ensures leftSnap == Some(leftValues) && rightSnap == Some(rightValues)
    {
      leftSnap := Some(leftValues);
      rightSnap := Some(rightValues);
    }

    /** Left write, right write, then both snapshots, stopping at the first failure. */
    method Carry(forLeft: Fields, forRight: Fields, e: Event)
      modifies this
      ensures State() == Written(cfg, old(State()), forLeft, forRight, e)
    {
      var leftFinal, rightFinal := Merge(left, forLeft), Merge(right, forRight);
      var ok := WriteTo(Left, forLeft, e.at, e.fault);
      if !ok { return; }
      ok := WriteTo(Right, forRight, e.at, e.fault);
      if !ok || e.fault == NotRecorded { return; }
      CommitPair(leftFinal, rightFinal);
    }

    method Handle(e: Event)
      modifies this
      ensures State() == Process(cfg, old(State()), e)
    {
      committed := committed - e.expired;
      if e.suppressed { return; }
      var leftState := StateOf(cfg, left, leftSnap, leftAt);
      var rightState := StateOf(cfg, right, rightSnap, rightAt);
      var res := Conflict.Resolve(cfg.resolver, leftState, rightState, cfg.names);
      if res.action == Conflict.Escalate { return; }
      Carry(Conflict.ToLeft(res), Conflict.ToRight(res), e);
    }
  }

  // ---- quiescence ---------------------------------------------------------------------

  /** Both snapshots are exactly what the peers hold. */
  predicate Quiescent(p: Pair) { p.leftSnap == Some(p.left) && p.rightSnap == Some(p.right) }

  lemma QuiescentDecision(cfg: Config, p: Pair)
    requires Quiescent(p)
    ensures Decision(cfg, p).action == Conflict.Nothing
  {}

  /** Equal in everything but the keys on record. */
  predicate SamePair(p: Pair, q: Pair) { p.(committed := {}) == q.(committed := {}) }

  lemma DecisionIgnoresKeys(cfg: Config, p: Pair, q: Pair)
    requires SamePair(p, q)
    ensures Decision(cfg, p) == Decision(cfg, q)
  {}

  lemma QuiescentStays(cfg: Config, p: Pair, e: Event)
    requires Quiescent(p)
    ensures Process(cfg, p, e) == Forgetting(p, e.expired)
  {
    var q := Forgetting(p, e.expired);
    QuiescentDecision(cfg, q);
    AppliedNothing(cfg, q, Decision(cfg, q), e);
  }

  lemma AppliedNothing(cfg: Config, p: Pair, res: Conflict.Resolution, e: Event)
    requires Quiescent(p) && res.action == Conflict.Nothing
    ensures Applied(cfg, p, res, e) == p
  {
    assert Merge(p.left, map[]) == p.left && Merge(p.right, map[]) == p.right;
  }

  lemma {:induction false} QuiescentForever(cfg: Config, p: Pair, events: seq<Event>)
    requires Quiescent(p)
    ensures SamePair(Run(cfg, p, events), p)
    decreases events
  {
    if |events| > 0 {
      QuiescentStays(cfg, p, events[0]);
      QuiescentForever(cfg, Process(cfg, p, events[0]), events[1..]);
    }
  }

  // ---- the loop stops -------------------------------------------------------------------

  /** No write between these two records has been committed under any payload. */
  ghost predicate NoPriorKey(cfg: Config, p: Pair)
  {
    forall payload: string ::
      && IdemKey(cfg.sync, cfg.kind, cfg.leftRef, cfg.rightRef, payload) !in p.committed
      && IdemKey(cfg.sync, cfg.kind, cfg.rightRef, cfg.leftRef, payload) !in p.committed
  }

  lemma KeysOfTheTwoDirectionsDiffer(cfg: Config, p: Pair, forLeft: Fields, forRight: Fields)
    requires cfg.leftRef.connector != cfg.rightRef.connector
    ensures WriteKey(cfg, Left, p.left, forLeft) != WriteKey(cfg, Right, p.right, forRight)
  {
    IdemKeyInjective(
      cfg.sync, cfg.kind, cfg.rightRef, cfg.leftRef, SnapshotHash(Merge(p.left, forLeft), cfg.names).preimage,
      cfg.sync, cfg.kind, cfg.leftRef, cfg.rightRef, SnapshotHash(Merge(p.right, forRight), cfg.names).preimage);
  }

  /** A fault after the first of two writes has landed leaves the pair half written, and a loss leaves what has
      landed unrecorded. */
  predicate CutShort(cfg: Config, p: Pair, e: Event)
  {
    (Decision(cfg, p).action == Conflict.WriteBoth && e.fault == RightFails) || Lossy(e.fault)
  }

  /** Writes with fresh keys land, or fail before anything has landed. */
  lemma WrittenOnce(cfg: Config, p: Pair, forLeft: Fields, forRight: Fields, e: Event)
    requires WriteKey(cfg, Left, p.left, forLeft) !in p.committed
    requires WriteKey(cfg, Right, p.right, forRight) !in p.committed
    requires WriteKey(cfg, Left, p.left, forLeft) != WriteKey(cfg, Right, p.right, forRight)
    requires !Lossy(e.fault) && (e.fault == RightFails ==> forLeft == map[] || forRight == map[])
    ensures
      var next := Written(cfg, p, forLeft, forRight, e);
      && (next == p || Quiescent(next))
      && next.leftUpserts <= p.leftUpserts + 1 && next.rightUpserts <= p.rightUpserts + 1
      && (e.fault == NoFault ==>
            Quiescent(next) && next.left == Merge(p.left, forLeft) && next.right == Merge(p.right, forRight))
  {
    assert Merge(p.left, map[]) == p.left && Merge(p.right, map[]) == p.right;
    if !Fails(cfg, p, Left, forLeft, e.fault) {
      var p1 := Write(cfg, p, Left, forLeft, e.at);
      assert p1.left == Merge(p.left, forLeft) && p1.right == p.right && p1.rightUpserts == p.rightUpserts;
      assert Calls(cfg, p1, Right, forRight) <==> forRight != map[];
    }
  }

  lemma AppliedOnce(cfg: Config, p: Pair, res: Conflict.Resolution, e: Event)
    requires cfg.leftRef.connector != cfg.rightRef.connector && NoPriorKey(cfg, p)
    requires !(res.action == Conflict.WriteBoth && e.fault == RightFails) && !Lossy(e.fault)
    ensures
      var next := Applied(cfg, p, res, e);
      && (next == p || Quiescent(next))
      && next.leftUpserts <= p.leftUpserts + 1 && next.rightUpserts <= p.rightUpserts + 1
      && (res.action == Conflict.Escalate ==> next == p)
      && (e.fault == NoFault && res.action != Conflict.Escalate ==>
            Quiescent(next)
            && next.left == Merge(p.left, Conflict.ToLeft(res)) && next.right == Merge(p.right, Conflict.ToRight(res)))
  {
    var forLeft, forRight := Conflict.ToLeft(res), Conflict.ToRight(res);
    KeysOfTheTwoDirectionsDiffer(cfg, p, forLeft, forRight);
    WrittenOnce(cfg, p, forLeft, forRight, e);
  }

  ghost predicate SomePass(events: seq<Event>)
  {
    exists i :: 0 <= i < |events| && !events[i].suppressed && events[i].fault == NoFault
  }

  lemma SomePassTail(events: seq<Event>)
    requires |events| > 0 && SomePass(events)
    ensures (!events[0].suppressed && events[0].fault == NoFault) || SomePass(events[1..])
  {}

  /** One event of a pair with nothing on record: it settles the pair or leaves it as it was. */
  lemma ProcessedOnce(cfg: Config, p: Pair, e: Event)
    requires cfg.leftRef.connector != cfg.rightRef.connector && NoPriorKey(cfg, p) && !CutShort(cfg, p, e)
    ensures
      var next, res := Process(cfg, p, e), Decision(cfg, p);
      && (Quiescent(next) || (SamePair(next, p) && NoPriorKey(cfg, next)))
      && next.leftUpserts <= p.leftUpserts + 1 && next.rightUpserts <= p.rightUpserts + 1
      && (res.action == Conflict.Escalate ==> SamePair(next, p))
      && (e.fault == NoFault && !e.suppressed && res.action != Conflict.Escalate ==> Quiescent(next))
  {
    var q := Forgetting(p, e.expired);
    DecisionIgnoresKeys(cfg, p, q);
    AppliedOnce(cfg, q, Decision(cfg, q), e);
  }

  /** The loop stops: from any state of a linked pair that nobody edits any more, any run of events
      from either side, recognised as echoes or not, answered with failures or not, however late,
      lands at most one upsert per side. As soon as one event is processed without a fault the snapshots
      equal what the peers hold; a pair that escalates is never written. */
  lemma {:induction false} LoopStops(cfg: Config, p: Pair, events: seq<Event>)
    requires cfg.leftRef.connector != cfg.rightRef.connector && NoPriorKey(cfg, p)
    requires forall i :: 0 <= i < |events| ==> !CutShort(cfg, p, events[i])
    ensures
      var end := Run(cfg, p, events);
      && end.leftUpserts <= p.leftUpserts + 1 && end.rightUpserts <= p.rightUpserts + 1
      && (SamePair(end, p) || Quiescent(end))
      && (Decision(cfg, p).action == Conflict.Escalate ==> SamePair(end, p))
      && (Decision(cfg, p).action != Conflict.Escalate && SomePass(events) ==> Quiescent(end))
    decreases events
  {
    if |events| > 0 {
      ProcessedOnce(cfg, p, events[0]);
      var next := Process(cfg, p, events[0]);
      if Quiescent(next) {
        QuiescentForever(cfg, next, events[1..]);
      } else {
        DecisionIgnoresKeys(cfg, next, p);
        LoopStops(cfg, next, events[1..]);
        if SomePass(events) { SomePassTail(events); }
      }
    }
  }

  // ---- what every event keeps ---------------------------------------------------------------------

  /** One side holds what the other would send it for `f`. */
  predicate Arrived(here: Fields, across: Fields, f: string) { f in here && here[f] == Conflict.At(across, f) }

  /** The key of a write that brings a side to `state`. */
  function KeyFor(cfg: Config, side: Side, state: Fields): Hash
  {
    var payload := SnapshotHash(state, cfg.names).preimage;
    if side == Left then IdemKey(cfg.sync, cfg.kind, cfg.rightRef, cfg.leftRef, payload)
    else IdemKey(cfg.sync, cfg.kind, cfg.leftRef, cfg.rightRef, payload)
  }

  lemma KeyDecidesFields(cfg: Config, side: Side, f: Fields, g: Fields)
    ensures KeyFor(cfg, side, f) == KeyFor(cfg, side, g) <==> AgreeOn(f, g, cfg.names)
  {
    SnapshotHashDecidesFields(f, g, cfg.names);
    var a, b := SnapshotHash(f, cfg.names).preimage, SnapshotHash(g, cfg.names).preimage;
    IdemKeyInjective(
      cfg.sync, cfg.kind, cfg.rightRef, cfg.leftRef, a, cfg.sync, cfg.kind, cfg.rightRef, cfg.leftRef, b);
    IdemKeyInjective(
      cfg.sync, cfg.kind, cfg.leftRef, cfg.rightRef, a, cfg.sync, cfg.kind, cfg.leftRef, cfg.rightRef, b);
  }

  lemma KeysOfSidesDiffer(cfg: Config, side: Side, f: Fields, g: Fields)
    requires cfg.leftRef.connector != cfg.rightRef.connector
    ensures KeyFor(cfg, side, f) != KeyFor(cfg, OtherSide(side), g)
  {
    var a, b := SnapshotHash(f, cfg.names).preimage, SnapshotHash(g, cfg.names).preimage;
    IdemKeyInjective(
      cfg.sync, cfg.kind, cfg.rightRef, cfg.leftRef, a, cfg.sync, cfg.kind, cfg.leftRef, cfg.rightRef, b);
    IdemKeyInjective(
      cfg.sync, cfg.kind, cfg.leftRef, cfg.rightRef, a, cfg.sync, cfg.kind, cfg.rightRef, cfg.leftRef, b);
  }

  /** Values bound for one side come from the other, for mapped fields only. */
  ghost predicate Carried(cfg: Config, across: Fields, values: Fields)
  {
    forall f :: f in values ==> f in cfg.names && values[f] == Conflict.At(across, f)
  }

  /** `state` was a state of this side once: it has lost no field since, and what had arrived is still there. */
  predicate Remembers(state: Fields, here: Fields, across: Fields, f: string)
  {
    f in state ==> f in here && (Arrived(state, across, f) ==> Arrived(here, across, f))
  }

  /** Every state of the side that is on record was one of its states. */
  ghost predicate KeysTellTheTruth(cfg: Config, committed: set<Hash>, side: Side, here: Fields, across: Fields)
  {
    forall state: Fields, f: string {:trigger Remembers(state, here, across, f)} ::
      KeyFor(cfg, side, state) in committed && f in cfg.names ==> Remembers(state, here, across, f)
  }

  /** A pair nobody else has edited since its keys were last known to be none. */
  ghost predicate Underway(cfg: Config, p: Pair)
  {
    && KeysTellTheTruth(cfg, p.committed, Left, p.left, p.right)
    && KeysTellTheTruth(cfg, p.committed, Right, p.right, p.left)
  }

  lemma FreshIsUnderway(cfg: Config, p: Pair)
    requires NoPriorKey(cfg, p)
    ensures Underway(cfg, p)
  {}

  lemma ForgettingUnderway(cfg: Config, p: Pair, expired: set<Hash>)
    requires Underway(cfg, p)
    ensures Underway(cfg, Forgetting(p, expired))
  {}

  /** A key committed before can only be the key of a write that changes nothing. */
  lemma ReplayChangesNothing(
    cfg: Config, committed: set<Hash>, side: Side, here: Fields, across: Fields, values: Fields)
    requires KeysTellTheTruth(cfg, committed, side, here, across) && Carried(cfg, across, values)
    requires KeyFor(cfg, side, Merge(here, values)) in committed
    ensures Merge(here, values) == here
  {
    forall f | f in values
      ensures f in here && here[f] == values[f]
    {
      assert Remembers(Merge(here, values), here, across, f);
    }
  }

  /** The written side: what was on record is still there, and so is what was written. */
  lemma WrittenSideKept(
    cfg: Config, committed: set<Hash>, committed': set<Hash>, side: Side, here: Fields, across: Fields, values: Fields)
    requires KeysTellTheTruth(cfg, committed, side, here, across) && Carried(cfg, across, values)
    requires committed' <= committed + {KeyFor(cfg, side, Merge(here, values))}
    ensures KeysTellTheTruth(cfg, committed', side, Merge(here, values), across)
  {
    forall state: Fields, f: string | KeyFor(cfg, side, state) in committed' && f in cfg.names
      ensures Remembers(state, Merge(here, values), across, f)
    {
      if KeyFor(cfg, side, state) in committed {
        assert Remembers(state, here, across, f);
      } else {
        KeyDecidesFields(cfg, side, state, Merge(here, values));
        assert SameField(state, Merge(here, values), f);
      }
    }
  }

  /** The other side: a field that was sent across is, here, what was sent. */
  lemma OtherSideKept(
    cfg: Config, committed: set<Hash>, committed': set<Hash>, side: Side, here: Fields, across: Fields, values: Fields)
    requires cfg.leftRef.connector != cfg.rightRef.connector
    requires KeysTellTheTruth(cfg, committed, side, here, across) && Carried(cfg, here, values)
    requires committed' <= committed + {KeyFor(cfg, OtherSide(side), Merge(across, values))}
    ensures KeysTellTheTruth(cfg, committed', side, here, Merge(across, values))
  {
    forall state: Fields, f: string | KeyFor(cfg, side, state) in committed' && f in cfg.names
      ensures Remembers(state, here, Merge(across, values), f)
    {
      KeysOfSidesDiffer(cfg, side, state, Merge(across, values));
      assert Remembers(state, here, across, f);
    }
  }

  /** A write that lands keeps the pair under way, whether its key is recorded or not. */
  lemma LandingUnderway(cfg: Config, p: Pair, side: Side, values: Fields, at: int)
    requires cfg.leftRef.connector != cfg.rightRef.connector
    requires Underway(cfg, p) && Carried(cfg, Of(p, OtherSide(side)), values)
    ensures Underway(cfg, Upserted(p, side, values, at))
    ensures Underway(cfg, Landed(p, side, values, at, KeyFor(cfg, side, Merge(Of(p, side), values))))
  {
    var here, across := Of(p, side), Of(p, OtherSide(side));
    var noted := p.committed + {KeyFor(cfg, side, Merge(here, values))};
    WrittenSideKept(cfg, p.committed, p.committed, side, here, across, values);
    WrittenSideKept(cfg, p.committed, noted, side, here, across, values);
    OtherSideKept(cfg, p.committed, p.committed, OtherSide(side), across, here, values);
    OtherSideKept(cfg, p.committed, noted, OtherSide(side), across, here, values);
  }

  /** A write took: the values are there, whether they were sent now or had been before. */
  lemma WriteUnderway(cfg: Config, p: Pair, side: Side, values: Fields, at: int)
    requires cfg.leftRef.connector != cfg.rightRef.connector
    requires Underway(cfg, p) && Carried(cfg, Of(p, OtherSide(side)), values)
    ensures Underway(cfg, Write(cfg, p, side, values, at))
    ensures Of(Write(cfg, p, side, values, at), side) == Merge(Of(p, side), values)
  {
    if values == map[] {
      assert Merge(Of(p, side), values) == Of(p, side);
    } else if KeyFor(cfg, side, Merge(Of(p, side), values)) in p.committed {
      ReplayChangesNothing(cfg, p.committed, side, Of(p, side), Of(p, OtherSide(side)), values);
    } else {
      LandingUnderway(cfg, p, side, values, at);
    }
  }

  /** A write touches nothing on the other side. */
  lemma WriteKeepsOther(cfg: Config, p: Pair, side: Side, values: Fields, at: int)
    ensures
      var p1 := Write(cfg, p, side, values, at);
      && Of(p1, OtherSide(side)) == Of(p, OtherSide(side)) && p1.leftSnap == p.leftSnap && p1.rightSnap == p.rightSnap
      && (side == Left ==> p1.rightAt == p.rightAt && p1.rightUpserts == p.rightUpserts)
      && (side == Right ==>
            p1.leftAt == p.leftAt && p1.leftUpserts == p.leftUpserts && p1.rightUpserts <= p.rightUpserts + 1)
  {}

  /** Both writes took and both snapshots were recorded. */
  predicate Settles(p: Pair, next: Pair, forLeft: Fields, forRight: Fields)
  {
    && Quiescent(next) && next.left == Merge(p.left, forLeft) && next.right == Merge(p.right, forRight)
    && next.rightUpserts <= p.rightUpserts + 1
  }

  /** Cut short: neither snapshot was recorded. The left write may have landed, and after it, if something was
      lost, the right one too. */
  ghost predicate Halts(cfg: Config, p: Pair, next: Pair, forLeft: Fields, forRight: Fields, lossy: bool)
  {
    && Underway(cfg, next) && next.leftSnap == p.leftSnap && next.rightSnap == p.rightSnap
    && next.left in {p.left, Merge(p.left, forLeft)}
    && if lossy then next.right in {p.right, Merge(p.right, forRight)} && next.rightUpserts <= p.rightUpserts + 1
       else next.right == p.right && next.rightAt == p.rightAt && next.rightUpserts == p.rightUpserts
  }

  /** What a decision sends: each side values of the other, and no field to both. */
  ghost predicate Sendable(cfg: Config, p: Pair, forLeft: Fields, forRight: Fields)
  {
    Carried(cfg, p.right, forLeft) && Carried(cfg, p.left, forRight) && forLeft.Keys !! forRight.Keys
  }

  lemma SecondHalf(cfg: Config, p: Pair, p1: Pair, forLeft: Fields, forRight: Fields, e: Event)
    requires cfg.leftRef.connector != cfg.rightRef.connector
    requires Underway(cfg, p1) && p1.left == Merge(p.left, forLeft) && Carried(cfg, p1.left, forRight)
    requires p1.right == p.right && p1.rightAt == p.rightAt && p1.rightUpserts == p.rightUpserts
    requires p1.leftSnap == p.leftSnap && p1.rightSnap == p.rightSnap
    ensures
      var next := RightHalf(cfg, p1, forRight, e, Merge(p.left, forLeft), Merge(p.right, forRight));
      && (Settles(p, next, forLeft, forRight) || Halts(cfg, p, next, forLeft, forRight, Lossy(e.fault)))
      && (e.fault == NoFault ==> Settles(p, next, forLeft, forRight))
  {
    if Fails(cfg, p1, Right, forRight, e.fault) {
      assert RightHalf(cfg, p1, forRight, e, Merge(p.left, forLeft), Merge(p.right, forRight)) == p1;
    } else if Loses(cfg, p1, Right, forRight, e.fault) {
      LandingUnderway(cfg, p1, Right, forRight, e.at);
    } else {
      WriteUnderway(cfg, p1, Right, forRight, e.at);
      WriteKeepsOther(cfg, p1, Right, forRight, e.at);
      RecordedProgress(cfg, p, Write(cfg, p1, Right, forRight, e.at), forLeft, forRight, e.fault);
    }
  }

  lemma RecordedProgress(cfg: Config, p: Pair, p2: Pair, forLeft: Fields, forRight: Fields, fault: Fault)
    requires Underway(cfg, p2) && p2.left == Merge(p.left, forLeft) && p2.right == Merge(p.right, forRight)
    requires p2.rightUpserts <= p.rightUpserts + 1 && p2.leftSnap == p.leftSnap && p2.rightSnap == p.rightSnap
    ensures
      var next := Recorded(p2, fault, Merge(p.left, forLeft), Merge(p.right, forRight));
      if fault == NotRecorded then Halts(cfg, p, next, forLeft, forRight, true) else Settles(p, next, forLeft, forRight)
  {}

  lemma WrittenProgress(cfg: Config, p: Pair, forLeft: Fields, forRight: Fields, e: Event)
    requires cfg.leftRef.connector != cfg.rightRef.connector
    requires Underway(cfg, p) && Sendable(cfg, p, forLeft, forRight)
    ensures
      var next := Written(cfg, p, forLeft, forRight, e);
      && (Settles(p, next, forLeft, forRight) || Halts(cfg, p, next, forLeft, forRight, Lossy(e.fault)))
      && (e.fault == NoFault ==> Settles(p, next, forLeft, forRight))
  {
    if Fails(cfg, p, Left, forLeft, e.fault) {
      assert Written(cfg, p, forLeft, forRight, e) == p;
    } else if Loses(cfg, p, Left, forLeft, e.fault) {
      LandingUnderway(cfg, p, Left, forLeft, e.at);
    } else {
      WriteUnderway(cfg, p, Left, forLeft, e.at);
      WriteKeepsOther(cfg, p, Left, forLeft, e.at);
      SecondHalf(cfg, p, Write(cfg, p, Left, forLeft, e.at), forLeft, forRight, e);
    }
  }

  // ---- what a decision sends ------------------------------------------------------------------------

  lemma SettledCarries(
    cfg: Config, left: Conflict.State, right: Conflict.State, choose: Conflict.FieldDiff -> Conflict.Choice)
    ensures
      var diffs := Conflict.DiffOf(left, right, Ordering.Sort(Self, cfg.names));
      && Carried(cfg, right.fields, Conflict.ForLeft(choose, diffs))
      && Carried(cfg, left.fields, Conflict.ForRight(choose, diffs))
      && Conflict.ForLeft(choose, diffs).Keys !! Conflict.ForRight(choose, diffs).Keys
  {
    var diffs := Conflict.DiffOf(left, right, Ordering.Sort(Self, cfg.names));
    forall f: string
      ensures f in Conflict.ForLeft(choose, diffs) ==>
        f in cfg.names && Conflict.ForLeft(choose, diffs)[f] == Conflict.At(right.fields, f)
      ensures f in Conflict.ForRight(choose, diffs) ==>
        f in cfg.names && Conflict.ForRight(choose, diffs)[f] == Conflict.At(left.fields, f)
      ensures !(f in Conflict.ForLeft(choose, diffs) && f in Conflict.ForRight(choose, diffs))
    {
      Conflict.ForLeftMembers(choose, diffs, f);
      Conflict.ForRightMembers(choose, diffs, f);
      Conflict.DiffFor(left, right, cfg.names, f);
    }
  }

  lemma PickCarries(cfg: Config, fields: Fields)
    ensures Carried(cfg, fields, Conflict.Pick(fields, cfg.names))
  {}

  /** What a resolution sends. */
  ghost predicate Sends(cfg: Config, left: Fields, right: Fields, res: Conflict.Resolution)
  {
    && Carried(cfg, right, Conflict.ToLeft(res)) && Carried(cfg, left, Conflict.ToRight(res))
    && Conflict.ToLeft(res).Keys !! Conflict.ToRight(res).Keys
  }

  lemma SettledSends(
    cfg: Config, left: Conflict.State, right: Conflict.State, res: Conflict.Resolution,
    choose: Conflict.FieldDiff -> Conflict.Choice)
    requires Conflict.Empty(res) && res.diffs == Conflict.DiffOf(left, right, Ordering.Sort(Self, cfg.names))
    ensures Sends(cfg, left.fields, right.fields, Conflict.Settled(res, choose))
  {
    SettledCarries(cfg, left, right, choose);
    Conflict.SettledWrites(res, choose);
  }

  /** Writes of a whole record go one way. */
  predicate OneWay(left: Fields, right: Fields, names: seq<string>, res: Conflict.Resolution)
  {
    || (Conflict.ToLeft(res) == map[] && Conflict.ToRight(res) in {map[], Conflict.Pick(left, names)})
    || (Conflict.ToRight(res) == map[] && Conflict.ToLeft(res) == Conflict.Pick(right, names))
  }

  lemma OneWaySends(cfg: Config, left: Fields, right: Fields, res: Conflict.Resolution)
    requires OneWay(left, right, cfg.names, res)
    ensures Sends(cfg, left, right, res)
  {
    PickCarries(cfg, left);
    PickCarries(cfg, right);
  }

  /** Everything a conflict may come to. */
  lemma ConflictSettlesOrGoesOneWay(
    r: Conflict.Resolver, left: Conflict.State, right: Conflict.State, names: seq<string>, res: Conflict.Resolution)
    requires Conflict.Empty(res)
    ensures
      var out := Conflict.ResolveConflict(r, left, right, names, res);
      || out == Conflict.Settled(res, Conflict.ByPolicy(r, left, right))
      || out == Conflict.Settled(res.(policy := Conflict.FieldLevel), Conflict.ByMerge(left, right))
      || OneWay(left.fields, right.fields, names, out)
  {
    var out := Conflict.ResolveConflict(r, left, right, names, res);
    if |r.perField| > 0 {
      assert out == Conflict.Settled(res, Conflict.ByPolicy(r, left, right));
    } else if r.defaultPolicy == Conflict.FieldLevel && left.HasBase() && right.HasBase() {
      assert out == Conflict.Settled(res.(policy := Conflict.FieldLevel), Conflict.ByMerge(left, right));
    } else {
      assert OneWay(left.fields, right.fields, names, out);
    }
  }

  lemma ConflictSends(cfg: Config, left: Conflict.State, right: Conflict.State, res: Conflict.Resolution)
    requires Conflict.Empty(res) && res.diffs == Conflict.DiffOf(left, right, Ordering.Sort(Self, cfg.names))
    ensures Sends(cfg, left.fields, right.fields, Conflict.ResolveConflict(cfg.resolver, left, right, cfg.names, res))
  {
    var out := Conflict.ResolveConflict(cfg.resolver, left, right, cfg.names, res);
    ConflictSettlesOrGoesOneWay(cfg.resolver, left, right, cfg.names, res);
    SettledSends(cfg, left, right, res, Conflict.ByPolicy(cfg.resolver, left, right));
    SettledSends(cfg, left, right, res.(policy := Conflict.FieldLevel), Conflict.ByMerge(left, right));
    if OneWay(left.fields, right.fields, cfg.names, out) { OneWaySends(cfg, left.fields, right.fields, out); }
  }

  lemma DecideResolvesOrGoesOneWay(
    r: Conflict.Resolver, left: Conflict.State, right: Conflict.State, names: seq<string>, res: Conflict.Resolution)
    requires Conflict.Blank(res)
    ensures
      var out := Conflict.Decide(r, left, right, names, res);
      || (|res.diffs| > 0 && out == Conflict.ResolveConflict(r, left, right, names, res))
      || OneWay(left.fields, right.fields, names, out)
  {}

  lemma DecideSends(cfg: Config, left: Conflict.State, right: Conflict.State, res: Conflict.Resolution)
    requires Conflict.Blank(res) && res.diffs == Conflict.DiffOf(left, right, Ordering.Sort(Self, cfg.names))
    ensures Sends(cfg, left.fields, right.fields, Conflict.Decide(cfg.resolver, left, right, cfg.names, res))
  {
    var out := Conflict.Decide(cfg.resolver, left, right, cfg.names, res);
    DecideResolvesOrGoesOneWay(cfg.resolver, left, right, cfg.names, res);
    ConflictSends(cfg, left, right, res);
    if OneWay(left.fields, right.fields, cfg.names, out) { OneWaySends(cfg, left.fields, right.fields, out); }
  }

  lemma DecisionSends(cfg: Config, p: Pair)
    ensures Sends(cfg, p.left, p.right, Decision(cfg, p))
    ensures Sendable(cfg, p, Conflict.ToLeft(Decision(cfg, p)), Conflict.ToRight(Decision(cfg, p)))
  {
    DecideSends(cfg, LeftState(cfg, p), RightState(cfg, p),
                Conflict.Undecided(cfg.resolver, LeftState(cfg, p), RightState(cfg, p), cfg.names));
  }

  // ---- one event --------------------------------------------------------------------------------------

  /** What one event comes to, `res` being what was decided. */
  ghost predicate Progresses(cfg: Config, p: Pair, next: Pair, e: Event, res: Conflict.Resolution)
  {
    var forLeft, forRight := Conflict.ToLeft(res), Conflict.ToRight(res);
    && (Settles(p, next, forLeft, forRight) || Halts(cfg, p, next, forLeft, forRight, Lossy(e.fault)))
    && (e.fault == NoFault && !e.suppressed && res.action != Conflict.Escalate ==> Settles(p, next, forLeft, forRight))
    && (res.action == Conflict.Escalate ==> SamePair(next, p))
  }

  lemma AppliedProgress(cfg: Config, p: Pair, e: Event, res: Conflict.Resolution)
    requires cfg.leftRef.connector != cfg.rightRef.connector && Underway(cfg, p)
    requires Sendable(cfg, p, Conflict.ToLeft(res), Conflict.ToRight(res)) && !e.suppressed
    ensures Progresses(cfg, p, Applied(cfg, p, res, e), e, res)
  {
    if res.action != Conflict.Escalate {
      WrittenProgress(cfg, p, Conflict.ToLeft(res), Conflict.ToRight(res), e);
    }
  }

  lemma EventProgress(cfg: Config, p: Pair, e: Event)
    requires cfg.leftRef.connector != cfg.rightRef.connector && Underway(cfg, p)
    ensures Progresses(cfg, p, Process(cfg, p, e), e, Decision(cfg, p))
  {
    var q := Forgetting(p, e.expired);
    ForgettingUnderway(cfg, p, e.expired);
    DecisionIgnoresKeys(cfg, p, q);
    if !e.suppressed {
      DecisionSends(cfg, q);
      AppliedProgress(cfg, q, e, Decision(cfg, q));
    }
  }

  // ---- what the two records hold afterwards --------------------------------------------------------

  /** The sides moved since their snapshots, as seen in the mapped fields. */
  ghost predicate Moved(cfg: Config, fields: Fields, snap: Option<Fields>)
  {
    snap.None? || !AgreeOn(fields, snap.value, cfg.names)
  }

  /** What the resolver is shown of each side: its values and modification time, and the snapshot as its base. */
  lemma StatesMean(cfg: Config, p: Pair, f: string)
    ensures LeftState(cfg, p).fields == p.left && RightState(cfg, p).fields == p.right
    ensures LeftState(cfg, p).updatedAt == p.leftAt && RightState(cfg, p).updatedAt == p.rightAt
    ensures Conflict.Edited(LeftState(cfg, p), f)
       <==> if p.leftSnap.Some? then !SameField(p.left, p.leftSnap.value, f) else f in p.left
    ensures Conflict.Edited(RightState(cfg, p), f)
       <==> if p.rightSnap.Some? then !SameField(p.right, p.rightSnap.value, f) else f in p.right
    ensures LeftState(cfg, p).synced == NoHash <==> p.leftSnap.None?
    ensures RightState(cfg, p).synced == NoHash <==> p.rightSnap.None?
  {}

  lemma MovedMeansChanged(cfg: Config, p: Pair)
    ensures LeftState(cfg, p).hash != LeftState(cfg, p).synced <==> Moved(cfg, p.left, p.leftSnap)
    ensures RightState(cfg, p).hash != RightState(cfg, p).synced <==> Moved(cfg, p.right, p.rightSnap)
  {
    if p.leftSnap.Some? { SnapshotHashDecidesFields(p.left, p.leftSnap.value, cfg.names); }
    if p.rightSnap.Some? { SnapshotHashDecidesFields(p.right, p.rightSnap.value, cfg.names); }
  }

  /** An event that meets no fault changes nothing when it is recognised as an echo, or when both sides moved and
      a mapped field they disagree about is undecidable, which leaves the pair for a person to decide. Otherwise
      it leaves every field on both sides as the policies say, with both snapshots taken. */
  lemma EventMeans(cfg: Config, p: Pair, e: Event)
    requires cfg.leftRef.connector != cfg.rightRef.connector && Underway(cfg, p) && cfg.resolver.skew >= 0
    requires e.fault == NoFault
    ensures
      var next, l, r := Process(cfg, p, e), LeftState(cfg, p), RightState(cfg, p);
      if e.suppressed
         || (Moved(cfg, p.left, p.leftSnap) && Moved(cfg, p.right, p.rightSnap)
             && Conflict.SomeUndecidable(cfg.resolver, l, r, cfg.names))
      then SamePair(next, p)
      else
        && next.leftSnap == Some(next.left) && next.rightSnap == Some(next.right)
        && forall f :: Conflict.FieldResolved(cfg.resolver, l, r, cfg.names, f, next.left, next.right)
  {
    MovedMeansChanged(cfg, p);
    EventProgress(cfg, p, e);
    Conflict.ResolutionMeans(cfg.resolver, LeftState(cfg, p), RightState(cfg, p), cfg.names);
  }

  /** Both sides were edited and the policy for the whole record prefers one of them: after the event the other
      holds all its mapped values, the preferred side is as it was, and both snapshots are taken. */
  lemma WinnerReachesTheOtherSide(cfg: Config, p: Pair, e: Event, winner: Side, f: string)
    requires cfg.leftRef.connector != cfg.rightRef.connector && Underway(cfg, p) && cfg.resolver.skew >= 0
    requires e.fault == NoFault && !e.suppressed
    requires Moved(cfg, p.left, p.leftSnap) && Moved(cfg, p.right, p.rightSnap)
    requires Conflict.Prefers(cfg.resolver, LeftState(cfg, p), RightState(cfg, p), winner)
    ensures
      var next := Process(cfg, p, e);
      && next.leftSnap == Some(next.left) && next.rightSnap == Some(next.right)
      && SameField(Of(next, winner), Of(p, winner), f)
      && (f in cfg.names && f in Of(p, winner) ==>
            f in Of(next, OtherSide(winner)) && Of(next, OtherSide(winner))[f] == Of(p, winner)[f])
  {
    var next, l, r := Process(cfg, p, e), LeftState(cfg, p), RightState(cfg, p);
    EventMeans(cfg, p, e);
    MovedMeansChanged(cfg, p);
    Conflict.PreferredIsDecidable(cfg.resolver, l, r, cfg.names, winner);
    Conflict.PreferredField(cfg.resolver, l, r, cfg.names, winner, f, next.left, next.right);
  }

  /** Only one side was edited: after the event the other holds all its mapped values, whatever the policy. */
  lemma OnlyEditReachesTheOtherSide(cfg: Config, p: Pair, e: Event, edited: Side, f: string)
    requires cfg.leftRef.connector != cfg.rightRef.connector && Underway(cfg, p) && cfg.resolver.skew >= 0
    requires e.fault == NoFault && !e.suppressed
    requires Moved(cfg, p.left, p.leftSnap) <==> edited == Left
    requires Moved(cfg, p.right, p.rightSnap) <==> edited == Right
    ensures
      var next := Process(cfg, p, e);
      && next.leftSnap == Some(next.left) && next.rightSnap == Some(next.right)
      && (f in cfg.names ==> SameField(Of(next, edited), Of(p, edited), f))
      && (f in cfg.names && f in Of(p, edited) ==>
            f in Of(next, OtherSide(edited)) && Of(next, OtherSide(edited))[f] == Of(p, edited)[f])
  {
    var next, l, r := Process(cfg, p, e), LeftState(cfg, p), RightState(cfg, p);
    EventMeans(cfg, p, e);
    MovedMeansChanged(cfg, p);
    if f in cfg.names { Conflict.OnlyMoverField(cfg.resolver, l, r, cfg.names, f, next.left, next.right); }
  }
}
