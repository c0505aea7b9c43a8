/** Exactly which pairs can have the left side written without limit while the right side keeps failing, as a
    condition on the pair itself (`reconcile` and `write` in internal/engine/pipeline.go). */
module StuckPairs {
  import opened Wrappers
  import opened Model
  import opened Digest
  import Conflict
  import opened Reconcile
  import opened RetryLoop
  import opened HalfWrites

  // ---- the condition -----------------------------------------------------------------------------

  /** Fields sent to the left as null because the right side lacks them. */
  function Nulls(right: Fields, res: Conflict.Resolution): set<string>
  {
    set f | f in Conflict.ToLeft(res) && f !in right
  }

  /** What goes to the left instead once the clock turns against the fields it had decided for the left. */
  function TurnedValues(cfg: Config, right: Fields, res: Conflict.Resolution): Fields
  {
    map f | f in Conflict.ToRight(res) && f in Clocked(cfg.resolver, cfg.names) :: Conflict.At(right, f)
  }

  /** A second half write, with the clock turned, sends a null: something is still left for the right side, the
      right side lacks a field the clock decides, and the left snapshot is not restored by it all. */
  predicate TurnsNull(cfg: Config, p: Pair, res: Conflict.Resolution)
  {
    var turned := TurnedValues(cfg, p.right, res);
    && Conflict.ToRight(res).Keys - turned.Keys != {}
    && turned.Keys - p.right.Keys != {}
    && !(p.leftSnap.Some? && AgreeOn(Merge(Merge(p.left, Conflict.ToLeft(res)), turned), p.leftSnap.value, cfg.names))
  }

  /** Both sides are to be written; the half that lands first neither restores the left snapshot nor empties a
      field whose withdrawal would then look contested; and a null is sent to the left, now or when the clock
      turns. */
  ghost predicate SendsNullsOn(cfg: Config, p: Pair, res: Conflict.Resolution)
  {
    && res.action == Conflict.WriteBoth && !Restores(cfg, p, res)
    && Withdrawn(cfg.resolver, p.left, p.right, cfg.names, Conflict.ToLeft(res)) == {}
    && (Nulls(p.right, res) != {} || TurnsNull(cfg, p, res))
  }

  ghost predicate SendsNulls(cfg: Config, p: Pair) { SendsNullsOn(cfg, p, Decision(cfg, p)) }

  // ---- what a second look sends ------------------------------------------------------------------------

  function SentAgain(r: Retry): Fields { Conflict.ForLeft(r.again, Diffs(r.left2, r.right, r.names)) }

  function KeptAgain(r: Retry): Fields { Conflict.ForRight(r.again, Diffs(r.left2, r.right, r.names)) }

  /** A field on which the sides still disagree. */
  predicate StillOpen(r: Retry, f: string)
  {
    f in r.names && if f in r.Sent() then f !in r.right.fields else !SameField(r.left.fields, r.right.fields, f)
  }

  lemma OpenChoice(r: Retry, f: string)
    requires r.Valid()
    ensures f in SentAgain(r) <==>
      StillOpen(r, f) && r.again(Conflict.DiffAt(r.left2, r.right, f)) == Conflict.KeepRight
    ensures f in KeptAgain(r) <==>
      StillOpen(r, f) && r.again(Conflict.DiffAt(r.left2, r.right, f)) == Conflict.KeepLeft
  {
    var diffs2 := Diffs(r.left2, r.right, r.names);
    RetryDiff(r, f);
    Conflict.ForLeftMembers(r.again, diffs2, f);
    Conflict.ForRightMembers(r.again, diffs2, f);
  }

  /** What was sent and what was kept at first. */
  lemma FirstChoice(r: Retry, f: string)
    requires r.Valid()
    ensures f in r.Sent() || f in r.Kept() ==> f in r.names && !SameField(r.left.fields, r.right.fields, f)
    ensures f in r.Sent() && f in r.clocked ==> r.first == Conflict.KeepRight
    ensures f in r.Kept() && f in r.clocked ==> r.first == Conflict.KeepLeft
    ensures f in r.Kept() ==> f !in r.Sent()
  {
    var diffs := Diffs(r.left, r.right, r.names);
    Conflict.DiffFor(r.left, r.right, r.names, f);
    Conflict.ForLeftMembers(r.choose, diffs, f);
    Conflict.ForRightMembers(r.choose, diffs, f);
  }

  /** A field that is still open was sent as null, or decided for the left, or left alone. */
  lemma OpenFields(r: Retry, f: string)
    requires r.Valid() && r.withdrawn == {}
    ensures f in SentAgain(r) <==>
      if f in r.clocked
      then r.reading == Conflict.KeepRight && (f in r.Kept() || (f in r.Sent() && f !in r.right.fields))
      else f in r.Sent() && f !in r.right.fields
    ensures f in KeptAgain(r) <==>
      if f in r.clocked
      then r.reading == Conflict.KeepLeft && (f in r.Kept() || (f in r.Sent() && f !in r.right.fields))
      else f in r.Kept()
  {
    OpenChoice(r, f);
    FirstChoice(r, f);
    if StillOpen(r, f) && f !in r.Sent() { UnsentChoice(r, f); }
    if f in r.Kept() { KeptWasChosen(r, f); }
  }

  lemma KeptWasChosen(r: Retry, f: string)
    requires r.Valid() && f in r.Kept()
    ensures r.choose(Conflict.DiffAt(r.left, r.right, f)) == Conflict.KeepLeft
  {
    Conflict.DiffFor(r.left, r.right, r.names, f);
    Conflict.ForRightMembers(r.choose, Diffs(r.left, r.right, r.names), f);
  }

  /** Unless the clock cannot tell any more, the second look decides every field that is still open. */
  lemma NotBlockedAgain(r: Retry)
    requires r.Valid() && r.withdrawn == {} && (r.reading != Conflict.Blocked || r.reading == r.first)
    ensures !Conflict.AnyBlocked(r.again, Diffs(r.left2, r.right, r.names))
  {
    var diffs2 := Diffs(r.left2, r.right, r.names);
    Conflict.BlockedMembers(r.again, diffs2);
    forall d | d in diffs2
      ensures r.again(d) != Conflict.Blocked
    {
      RetryDiff(r, d.field);
      FirstChoice(r, d.field);
      if d.field !in r.Sent() { UnsentChoice(r, d.field); }
    }
  }

  lemma WithdrawnBlocks(r: Retry, f: string)
    requires r.Valid() && f in r.withdrawn
    ensures Conflict.AnyBlocked(r.again, Diffs(r.left2, r.right, r.names))
  {
    RetryDiff(r, f);
    Conflict.BlockedMembers(r.again, Diffs(r.left2, r.right, r.names));
    assert r.again(Conflict.DiffAt(r.left2, r.right, f)) == Conflict.Blocked;
  }

  /** Both sides still look changed, and there is something for each of them. */
  lemma SecondDecision(
    r: Conflict.Resolver, left: Conflict.State, right: Conflict.State, names: seq<string>, res: Conflict.Resolution)
    requires Conflict.Blank(res) && res.situation == Conflict.BothChanged
    requires |r.perField| == 0 ==> r.defaultPolicy == Conflict.FieldLevel && left.HasBase() && right.HasBase()
    requires !Conflict.AnyBlocked(Chooser(r, left, right), res.diffs)
    requires Conflict.ForLeft(Chooser(r, left, right), res.diffs) != map[]
    requires Conflict.ForRight(Chooser(r, left, right), res.diffs) != map[]
    ensures
      var out := Conflict.Decide(r, left, right, names, res);
      && out.action == Conflict.WriteBoth
      && Conflict.ToLeft(out) == Conflict.ForLeft(Chooser(r, left, right), res.diffs)
      && Conflict.ToRight(out) == Conflict.ForRight(Chooser(r, left, right), res.diffs)
  {
    assert |res.diffs| > 0;
    if |r.perField| > 0 {
      SettledBoth(res, Conflict.ByPolicy(r, left, right));
    } else {
      SettledBoth(res.(policy := Conflict.FieldLevel), Conflict.ByMerge(left, right));
    }
  }

  // ---- the half-written pair and its second look -----------------------------------------------------

  function RetryFor(cfg: Config, p: Pair, half: Pair): Retry
  {
    RetryOf(cfg.resolver, LeftState(cfg, p), LeftState(cfg, half), RightState(cfg, p), cfg.names)
  }

  /** `half` is `p` with the left half of its decision landed at `at`. */
  ghost predicate IsHalf(cfg: Config, p: Pair, half: Pair, at: int)
  {
    && Decision(cfg, p).action == Conflict.WriteBoth
    && half.left == Merge(p.left, Conflict.ToLeft(Decision(cfg, p))) && half.right == p.right
    && half.rightAt == p.rightAt
    && half.leftAt == at && half.leftSnap == p.leftSnap && half.rightSnap == p.rightSnap
  }

  /** What the second look has to go by. */
  lemma HalfFacts(cfg: Config, p: Pair, half: Pair, at: int)
    requires IsHalf(cfg, p, half, at)
    ensures
      var r, res := RetryFor(cfg, p, half), Decision(cfg, p);
      && r.Valid() && r.Sent() == Conflict.ToLeft(res) && r.Kept() == Conflict.ToRight(res)
      && (LeftState(cfg, half).Changed() <==> !Restores(cfg, p, res))
    ensures RightState(cfg, half) == RightState(cfg, p) && RightState(cfg, p).Changed()
    ensures |cfg.resolver.perField| == 0 ==>
      && cfg.resolver.defaultPolicy == Conflict.FieldLevel
      && LeftState(cfg, half).HasBase() && RightState(cfg, p).HasBase()
  {
    HalfIsDone(cfg, p, half, at);
    RetryIsValid(cfg.resolver, LeftState(cfg, p), LeftState(cfg, half), RightState(cfg, p), cfg.names,
                 Conflict.ToLeft(Decision(cfg, p)));
    WriteBothNeedsConflict(cfg.resolver, LeftState(cfg, p), RightState(cfg, p), cfg.names);
    RestoredIff(cfg, half.left, p.leftSnap, at);
  }

  /** If the second look finds something for each side, that is what is decided. */
  lemma HalfDecidesBoth(cfg: Config, p: Pair, half: Pair, at: int)
    requires IsHalf(cfg, p, half, at) && !Restores(cfg, p, Decision(cfg, p))
    requires
      var r := RetryFor(cfg, p, half);
      && !Conflict.AnyBlocked(r.again, Diffs(r.left2, r.right, r.names)) && SentAgain(r) != map[]
      && KeptAgain(r) != map[]
    ensures
      var r, res2 := RetryFor(cfg, p, half), Decision(cfg, half);
      && res2.action == Conflict.WriteBoth
      && Conflict.ToLeft(res2) == SentAgain(r) && Conflict.ToRight(res2) == KeptAgain(r)
  {
    HalfFacts(cfg, p, half, at);
    var left2, right := LeftState(cfg, half), RightState(cfg, p);
    SecondDecision(cfg.resolver, left2, right, cfg.names, Conflict.Undecided(cfg.resolver, left2, right, cfg.names));
  }

  /** And the other way round: a second decision to write both sides was made of what the second look found. */
  lemma HalfDecidedBoth(cfg: Config, p: Pair, half: Pair, at: int)
    requires IsHalf(cfg, p, half, at) && Decision(cfg, half).action == Conflict.WriteBoth
    ensures
      var r, res2 := RetryFor(cfg, p, half), Decision(cfg, half);
      && !Restores(cfg, p, Decision(cfg, p)) && r.withdrawn == {}
      && Conflict.ToLeft(res2) == SentAgain(r) != map[] && Conflict.ToRight(res2) == KeptAgain(r) != map[]
  {
    var r := RetryFor(cfg, p, half);
    HalfFacts(cfg, p, half, at);
    var left2, right := LeftState(cfg, half), RightState(cfg, p);
    WriteBothNeedsConflict(cfg.resolver, left2, right, cfg.names);
    BothMeansSettled(cfg.resolver, left2, right, cfg.names, Conflict.Undecided(cfg.resolver, left2, right, cfg.names));
    BothAreSent(cfg, half);
    if f :| f in r.withdrawn { WithdrawnBlocks(r, f); }
  }

  // ---- a null that is sent gets the pair stuck -----------------------------------------------------------

  /** The event that lands the left half at `at` and fails on the right, with neither write on record. */
  function HalfEvent(cfg: Config, p: Pair, at: int): Event
  {
    var res := Decision(cfg, p);
    Event(Left, false, RightFails, at,
          {KeyFor(cfg, Left, Merge(p.left, Conflict.ToLeft(res))),
           KeyFor(cfg, Right, Merge(p.right, Conflict.ToRight(res)))})
  }

  lemma HalfHappens(cfg: Config, p: Pair, at: int)
    requires cfg.leftRef.connector != cfg.rightRef.connector && Underway(cfg, p)
    requires Decision(cfg, p).action == Conflict.WriteBoth
    ensures
      var half := Process(cfg, p, HalfEvent(cfg, p, at));
      IsHalf(cfg, p, half, at) && Underway(cfg, half)
  {
    HalfProcessed(cfg, p, HalfEvent(cfg, p, at));
    HalfKeepsRight(cfg, p, HalfEvent(cfg, p, at));
  }

  lemma HalfKeepsRight(cfg: Config, p: Pair, e: Event)
    requires cfg.leftRef.connector != cfg.rightRef.connector && Underway(cfg, p) && !Lossy(e.fault)
    requires !Quiescent(Process(cfg, p, e))
    ensures
      var next := Process(cfg, p, e);
      next.rightAt == p.rightAt && next.rightSnap == p.rightSnap
  {
    EventProgress(cfg, p, e);
  }

  /** If every half-written form of the pair may get stuck, so may the pair. */
  lemma HalfThenStuck(cfg: Config, p: Pair, at: int)
    requires cfg.leftRef.connector != cfg.rightRef.connector && Underway(cfg, p)
    requires Decision(cfg, p).action == Conflict.WriteBoth
    requires forall half: Pair :: IsHalf(cfg, p, half, at) && Underway(cfg, half) ==> MayGetStuck(cfg, half)
    ensures MayGetStuck(cfg, p)
  {
    HalfHappens(cfg, p, at);
    StuckLater(cfg, p, HalfEvent(cfg, p, at));
  }

  /** The clock reading as before, the second look sends exactly the nulls again and keeps what was kept. */
  lemma NullsAgain(r: Retry)
    requires r.Valid() && r.withdrawn == {} && r.reading == r.first
    ensures forall f :: f in SentAgain(r) <==> f in r.Sent() && f !in r.right.fields
    ensures forall f :: f in r.Kept() ==> f in KeptAgain(r)
    ensures !Conflict.AnyBlocked(r.again, Diffs(r.left2, r.right, r.names))
  {
    forall f: string
      ensures f in SentAgain(r) <==> f in r.Sent() && f !in r.right.fields
      ensures f in r.Kept() ==> f in KeptAgain(r)
    {
      OpenFields(r, f);
      FirstChoice(r, f);
    }
    NotBlockedAgain(r);
  }

  /** Landed with the clock unmoved, the half leaves the pair stuck. */
  lemma HalfIsStuck(cfg: Config, p: Pair, half: Pair)
    requires IsHalf(cfg, p, half, p.leftAt) && !Restores(cfg, p, Decision(cfg, p))
    requires Nulls(p.right, Decision(cfg, p)) != {}
    requires Withdrawn(cfg.resolver, p.left, p.right, cfg.names, Conflict.ToLeft(Decision(cfg, p))) == {}
    ensures Stuck(cfg, half)
  {
    var r, res := RetryFor(cfg, p, half), Decision(cfg, p);
    HalfFacts(cfg, p, half, p.leftAt);
    BothAreSent(cfg, p);
    OnlyNullsAgain(r, res);
    HalfDecidesBoth(cfg, p, half, p.leftAt);
  }

  /** They have all arrived, so the second look has no news for the left side. */
  lemma OnlyNullsAgain(r: Retry, res: Conflict.Resolution)
    requires r.Valid() && r.withdrawn == {} && r.reading == r.first
    requires r.Sent() == Conflict.ToLeft(res) && r.Kept() == Conflict.ToRight(res) != map[]
    requires Nulls(r.right.fields, res) != {}
    ensures SentAgain(r) != map[] && KeptAgain(r) != map[]
    ensures !Conflict.AnyBlocked(r.again, Diffs(r.left2, r.right, r.names))
    ensures forall f :: f in SentAgain(r) ==> Arrived(r.left2.fields, r.right.fields, f)
  {
    NullsAgain(r);
    var f :| f in Nulls(r.right.fields, res);
    assert f in SentAgain(r);
    var g :| g in Conflict.ToRight(res);
    assert g in KeptAgain(r);
    forall f | f in SentAgain(r)
      ensures Arrived(r.left2.fields, r.right.fields, f)
    {
      RetryDiff(r, f);
    }
  }

  lemma NullGetsStuck(cfg: Config, p: Pair)
    requires cfg.leftRef.connector != cfg.rightRef.connector && Underway(cfg, p)
    requires Decision(cfg, p).action == Conflict.WriteBoth && !Restores(cfg, p, Decision(cfg, p))
    requires Withdrawn(cfg.resolver, p.left, p.right, cfg.names, Conflict.ToLeft(Decision(cfg, p))) == {}
    requires Nulls(p.right, Decision(cfg, p)) != {}
    ensures MayGetStuck(cfg, p)
  {
    forall half: Pair | IsHalf(cfg, p, half, p.leftAt) && Underway(cfg, half)
      ensures MayGetStuck(cfg, half)
    {
      HalfIsStuck(cfg, p, half);
      StuckNow(cfg, half);
    }
    HalfThenStuck(cfg, p, p.leftAt);
  }

  // ---- and so does one that is sent when the clock turns ---------------------------------------------------

  /** The clock turned to the right, the second look sends what the clock had kept, and keeps the rest. */
  lemma TurnedFields(r: Retry)
    requires r.Valid() && r.withdrawn == {} && r.reading == Conflict.KeepRight
    requires forall f :: f in r.Sent() ==> f in r.right.fields
    ensures forall f :: f in SentAgain(r) <==> f in r.Kept() && f in r.clocked
    ensures forall f :: f in KeptAgain(r) <==> f in r.Kept() && f !in r.clocked
    ensures !Conflict.AnyBlocked(r.again, Diffs(r.left2, r.right, r.names))
  {
    forall f: string
      ensures f in SentAgain(r) <==> f in r.Kept() && f in r.clocked
      ensures f in KeptAgain(r) <==> f in r.Kept() && f !in r.clocked
    {
      OpenFields(r, f);
    }
    NotBlockedAgain(r);
  }

  lemma TurnedAgain(cfg: Config, p: Pair, half: Pair, at: int)
    requires IsHalf(cfg, p, half, at)
    requires Withdrawn(cfg.resolver, p.left, p.right, cfg.names, Conflict.ToLeft(Decision(cfg, p))) == {}
    requires Nulls(p.right, Decision(cfg, p)) == {} && RetryFor(cfg, p, half).reading == Conflict.KeepRight
    ensures
      var r, res := RetryFor(cfg, p, half), Decision(cfg, p);
      && SentAgain(r) == TurnedValues(cfg, p.right, res)
      && KeptAgain(r).Keys == Conflict.ToRight(res).Keys - TurnedValues(cfg, p.right, res).Keys
      && !Conflict.AnyBlocked(r.again, Diffs(r.left2, r.right, r.names))
  {
    var r, res := RetryFor(cfg, p, half), Decision(cfg, p);
    HalfFacts(cfg, p, half, at);
    TurnedOn(cfg, r, res);
  }

  lemma TurnedOn(cfg: Config, r: Retry, res: Conflict.Resolution)
    requires r.Valid() && r.withdrawn == {} && r.reading == Conflict.KeepRight
    requires r.names == cfg.names && r.clocked == Clocked(cfg.resolver, cfg.names)
    requires r.Sent() == Conflict.ToLeft(res) && r.Kept() == Conflict.ToRight(res) && Nulls(r.right.fields, res) == {}
    ensures SentAgain(r) == TurnedValues(cfg, r.right.fields, res)
    ensures KeptAgain(r).Keys == Conflict.ToRight(res).Keys - TurnedValues(cfg, r.right.fields, res).Keys
    ensures !Conflict.AnyBlocked(r.again, Diffs(r.left2, r.right, r.names))
  {
    NoNulls(r.right.fields, res);
    TurnedFields(r);
    SettledCarries(cfg, r.left2, r.right, r.again);
    TurnedValuesAreSent(cfg, r.right.fields, res, SentAgain(r));
  }

  lemma NoNulls(right: Fields, res: Conflict.Resolution)
    requires Nulls(right, res) == {}
    ensures forall f :: f in Conflict.ToLeft(res) ==> f in right
  {
    forall f | f in Conflict.ToLeft(res)
      ensures f in right
    {
      assert f !in Nulls(right, res);
    }
  }

  lemma TurnedValuesAreSent(cfg: Config, right: Fields, res: Conflict.Resolution, sent: Fields)
    requires forall f :: f in sent <==> f in Conflict.ToRight(res) && f in Clocked(cfg.resolver, cfg.names)
    requires Carried(cfg, right, sent)
    ensures sent == TurnedValues(cfg, right, res)
  {}

  /** An instant early enough for the right side to count as the newer one. */
  function Early(cfg: Config, p: Pair): int { p.rightAt - cfg.resolver.skew - 1 }

  lemma TurnGetsStuck(cfg: Config, p: Pair)
    requires cfg.leftRef.connector != cfg.rightRef.connector && Underway(cfg, p) && cfg.resolver.skew >= 0
    requires SendsNulls(cfg, p) && Nulls(p.right, Decision(cfg, p)) == {}
    ensures MayGetStuck(cfg, p)
  {
    forall half: Pair | IsHalf(cfg, p, half, Early(cfg, p)) && Underway(cfg, half)
      ensures MayGetStuck(cfg, half)
    {
      TurnedHalfGetsStuck(cfg, p, half);
    }
    HalfThenStuck(cfg, p, Early(cfg, p));
  }

  lemma TurnedHalfGetsStuck(cfg: Config, p: Pair, half: Pair)
    requires cfg.leftRef.connector != cfg.rightRef.connector && Underway(cfg, half)
    requires IsHalf(cfg, p, half, Early(cfg, p)) && cfg.resolver.skew >= 0
    requires SendsNulls(cfg, p) && Nulls(p.right, Decision(cfg, p)) == {}
    ensures MayGetStuck(cfg, half)
  {
    TurnedHalf(cfg, p, half);
    NullGetsStuck(cfg, half);
  }

  /** After the turn the pair is one that sends a null. */
  lemma TurnedHalf(cfg: Config, p: Pair, half: Pair)
    requires IsHalf(cfg, p, half, Early(cfg, p)) && cfg.resolver.skew >= 0
    requires SendsNulls(cfg, p) && Nulls(p.right, Decision(cfg, p)) == {}
    ensures
      var res2 := Decision(cfg, half);
      && res2.action == Conflict.WriteBoth && !Restores(cfg, half, res2) && Nulls(half.right, res2) != {}
      && Withdrawn(cfg.resolver, half.left, half.right, cfg.names, Conflict.ToLeft(res2)) == {}
  {
    var r, res := RetryFor(cfg, p, half), Decision(cfg, p);
    var turned := TurnedValues(cfg, p.right, res);
    ClockReads(cfg.resolver, LeftState(cfg, half), RightState(cfg, p));
    TurnedAgain(cfg, p, half, Early(cfg, p));
    var f :| f in turned.Keys - p.right.Keys;
    var g :| g in Conflict.ToRight(res).Keys - turned.Keys;
    assert f in SentAgain(r) && g in KeptAgain(r);
    HalfDecidesBoth(cfg, p, half, Early(cfg, p));
    assert f in Nulls(half.right, Decision(cfg, half));
  }

  // ---- nothing else does -------------------------------------------------------------------------------------

  /** With no null sent at first, only the clock can have made the second look send anything. */
  lemma OnlyTheClockSends(r: Retry)
    requires r.Valid() && r.withdrawn == {} && SentAgain(r) != map[]
    requires forall f :: f in r.Sent() ==> f in r.right.fields
    ensures r.reading == Conflict.KeepRight
  {
    var f :| f in SentAgain(r);
    OpenFields(r, f);
  }

  /** If the half-written pair sends a null, now or later, so did the pair it came from. */
  lemma HalfSendsOnly(cfg: Config, p: Pair, half: Pair, at: int)
    requires IsHalf(cfg, p, half, at) && SendsNulls(cfg, half)
    ensures SendsNulls(cfg, p)
  {
    var r, res, res2 := RetryFor(cfg, p, half), Decision(cfg, p), Decision(cfg, half);
    HalfDecidedBoth(cfg, p, half, at);
    HalfFacts(cfg, p, half, at);
    if Nulls(p.right, res) == {} {
      NoNulls(p.right, res);
      OnlyTheClockSends(r);
      TurnedAgain(cfg, p, half, at);
      TurnedSendsNull(cfg, p, half, res, res2);
    }
  }

  /** What the second look keeps, the clock does not decide; so its nulls are among what it sends. */
  lemma TurnedSendsNull(cfg: Config, p: Pair, half: Pair, res: Conflict.Resolution, res2: Conflict.Resolution)
    requires half.right == p.right && half.left == Merge(p.left, Conflict.ToLeft(res)) && half.leftSnap == p.leftSnap
    requires Conflict.ToLeft(res2) == TurnedValues(cfg, p.right, res) && Conflict.ToRight(res2) != map[]
    requires Conflict.ToRight(res2).Keys == Conflict.ToRight(res).Keys - TurnedValues(cfg, p.right, res).Keys
    requires !Restores(cfg, half, res2) && (Nulls(half.right, res2) != {} || TurnsNull(cfg, half, res2))
    ensures TurnsNull(cfg, p, res)
  {
    var turned := TurnedValues(cfg, p.right, res);
    assert TurnedValues(cfg, half.right, res2) == map[];
    var f :| f in Nulls(half.right, res2);
    assert f in turned.Keys - p.right.Keys;
    var g :| g in Conflict.ToRight(res2);
    assert g in Conflict.ToRight(res).Keys - turned.Keys;
  }

  /** A decision whose left half is no news sends nulls only. */
  lemma NoNewsIsNull(cfg: Config, left: Conflict.State, right: Conflict.State, sent: Fields, f: string)
    requires sent == Conflict.ForLeft(Chooser(cfg.resolver, left, right), Diffs(left, right, cfg.names))
    requires f in sent && Arrived(left.fields, right.fields, f)
    ensures f in cfg.names && f !in right.fields && left.fields[f] == Null
  {
    SentWasChosen(cfg.resolver, left, right, cfg.names, f);
  }

  lemma OnlyNullsSend(cfg: Config, p: Pair, res: Conflict.Resolution)
    requires res.action == Conflict.WriteBoth && Conflict.ToLeft(res) != map[]
    requires Carried(cfg, p.right, Conflict.ToLeft(res))
    requires forall f :: f in Conflict.ToLeft(res) ==> f in p.left && f !in p.right && p.left[f] == Null
    requires !(p.leftSnap.Some? && AgreeOn(p.left, p.leftSnap.value, cfg.names))
    ensures SendsNullsOn(cfg, p, res)
  {
    assert Merge(p.left, Conflict.ToLeft(res)) == p.left;
    var f :| f in Conflict.ToLeft(res);
    assert f in Nulls(p.right, res);
  }

  /** A stuck pair is one that sends nulls. */
  lemma StuckSendsNulls(cfg: Config, p: Pair)
    requires Stuck(cfg, p)
    ensures SendsNulls(cfg, p)
  {
    var res := Decision(cfg, p);
    StuckFacts(cfg, p);
    OnlyNullsSend(cfg, p, res);
  }

  lemma StuckFacts(cfg: Config, p: Pair)
    requires Stuck(cfg, p)
    ensures
      var sent := Conflict.ToLeft(Decision(cfg, p));
      && sent != map[] && Carried(cfg, p.right, sent)
      && (forall f :: f in sent ==> f in p.left && f !in p.right && p.left[f] == Null)
      && !(p.leftSnap.Some? && AgreeOn(p.left, p.leftSnap.value, cfg.names))
  {
    var sent := Conflict.ToLeft(Decision(cfg, p));
    var left, right := LeftState(cfg, p), RightState(cfg, p);
    BothAreSent(cfg, p);
    DecisionSends(cfg, p);
    WriteBothNeedsConflict(cfg.resolver, left, right, cfg.names);
    RestoredIff(cfg, p.left, p.leftSnap, p.leftAt);
    BothMeansSettled(cfg.resolver, left, right, cfg.names, Conflict.Undecided(cfg.resolver, left, right, cfg.names));
    forall f | f in sent
      ensures f in p.left && f !in p.right && p.left[f] == Null
    {
      assert Arrived(p.left, p.right, f);
      NoNewsIsNull(cfg, left, right, sent, f);
    }
  }

  /** What an answered event leaves unsettled is as it was, or half written. */
  lemma WrittenShape(cfg: Config, p: Pair, forLeft: Fields, forRight: Fields, e: Event)
    requires cfg.leftRef.connector != cfg.rightRef.connector && Underway(cfg, p) && Sendable(cfg, p, forLeft, forRight)
    requires !Lossy(e.fault)
    ensures
      var next := Written(cfg, p, forLeft, forRight, e);
      || Quiescent(next) || next == p
      || (forLeft != map[] && forRight != map[]
          && next == Landed(p, Left, forLeft, e.at, KeyFor(cfg, Left, Merge(p.left, forLeft))))
  {
    WrittenProgress(cfg, p, forLeft, forRight, e);
    if Fails(cfg, p, Left, forLeft, e.fault) {
      assert Written(cfg, p, forLeft, forRight, e) == p;
    } else {
      var p1 := Write(cfg, p, Left, forLeft, e.at);
      if Fails(cfg, p1, Right, forRight, e.fault) {
        assert Written(cfg, p, forLeft, forRight, e) == p1;
      } else {
        WriteUnderway(cfg, p, Left, forLeft, e.at);
        WriteKeepsOther(cfg, p, Left, forLeft, e.at);
        WriteUnderway(cfg, p1, Right, forRight, e.at);
        WriteKeepsOther(cfg, p1, Right, forRight, e.at);
      }
    }
  }

  lemma SameSends(cfg: Config, p: Pair, q: Pair)
    requires SamePair(p, q) && SendsNulls(cfg, p)
    ensures SendsNulls(cfg, q)
  {
    DecisionIgnoresKeys(cfg, p, q);
    SameSendsOn(cfg, p, q, Decision(cfg, p));
  }

  lemma SameSendsOn(cfg: Config, p: Pair, q: Pair, res: Conflict.Resolution)
    requires p.left == q.left && p.right == q.right && p.leftSnap == q.leftSnap && SendsNullsOn(cfg, p, res)
    ensures SendsNullsOn(cfg, q, res)
  {}

  /** What one answered event leaves unsettled: the pair as it was, or its half-written form. */
  lemma EventShape(cfg: Config, p: Pair, e: Event)
    requires cfg.leftRef.connector != cfg.rightRef.connector && Underway(cfg, p) && !Lossy(e.fault)
    ensures
      var next := Process(cfg, p, e);
      Quiescent(next) || SamePair(next, p) || IsHalf(cfg, p, next, e.at)
  {
    var q := Forgetting(p, e.expired);
    ForgettingUnderway(cfg, p, e.expired);
    DecisionIgnoresKeys(cfg, p, q);
    if !e.suppressed && Decision(cfg, p).action != Conflict.Escalate {
      DecisionSends(cfg, q);
      WrittenShape(cfg, q, Conflict.ToLeft(Decision(cfg, p)), Conflict.ToRight(Decision(cfg, p)), e);
    }
  }

  lemma EventSendsOnly(cfg: Config, p: Pair, e: Event)
    requires cfg.leftRef.connector != cfg.rightRef.connector && Underway(cfg, p) && !Lossy(e.fault)
    requires SendsNulls(cfg, Process(cfg, p, e)) && !Quiescent(Process(cfg, p, e))
    ensures SendsNulls(cfg, p)
  {
    EventShape(cfg, p, e);
    ShapeSendsOnly(cfg, p, Process(cfg, p, e), e.at);
  }

  lemma ShapeSendsOnly(cfg: Config, p: Pair, next: Pair, at: int)
    requires SendsNulls(cfg, next) && (SamePair(next, p) || IsHalf(cfg, p, next, at))
    ensures SendsNulls(cfg, p)
  {
    if SamePair(next, p) { SameSends(cfg, next, p); } else { HalfSendsOnly(cfg, p, next, at); }
  }

  lemma {:induction false} NeverGetsStuck(cfg: Config, p: Pair, events: seq<Event>)
    requires cfg.leftRef.connector != cfg.rightRef.connector && Underway(cfg, p) && Answered(events)
    requires Stuck(cfg, Run(cfg, p, events))
    ensures SendsNulls(cfg, p)
    decreases events
  {
    if |events| == 0 {
      StuckSendsNulls(cfg, p);
    } else {
      var next := Process(cfg, p, events[0]);
      EventProgress(cfg, p, events[0]);
      if Quiescent(next) {
        SettledIsNotStuck(cfg, next, events[1..]);
      } else {
        NeverGetsStuck(cfg, next, events[1..]);
        EventSendsOnly(cfg, p, events[0]);
      }
    }
  }

  lemma SettledIsNotStuck(cfg: Config, p: Pair, events: seq<Event>)
    requires Quiescent(p)
    ensures !Stuck(cfg, Run(cfg, p, events))
  {
    QuiescentForever(cfg, p, events);
    QuiescentDecision(cfg, Run(cfg, p, events));
  }

  /** Some run of answered failures gets the pair stuck if and only if the pair sends nulls. */
  lemma GetsStuckIff(cfg: Config, p: Pair)
    requires cfg.leftRef.connector != cfg.rightRef.connector && Underway(cfg, p) && cfg.resolver.skew >= 0
    ensures MayGetStuck(cfg, p) <==> SendsNulls(cfg, p)
  {
    if MayGetStuck(cfg, p) {
      var events :| Answered(events) && Stuck(cfg, Run(cfg, p, events));
      NeverGetsStuck(cfg, p, events);
    }
    if SendsNulls(cfg, p) {
      if Nulls(p.right, Decision(cfg, p)) != {} { NullGetsStuck(cfg, p); } else { TurnGetsStuck(cfg, p); }
    }
  }

  /** The left side of a pair nobody edits any more can be written without limit, answered failures and lapsing keys
      permitting, if and only if the pair sends nulls; otherwise it gets at most one more than it has fields to
      receive. */
  lemma LeftWritesUnboundedIff(cfg: Config, p: Pair)
    requires cfg.leftRef.connector != cfg.rightRef.connector && Underway(cfg, p) && cfg.resolver.skew >= 0
    ensures (forall n: nat :: Reaches(cfg, p, n)) <==> SendsNulls(cfg, p)
  {
    UnboundedIffStuck(cfg, p);
    GetsStuckIff(cfg, p);
  }

  lemma OtherwiseBounded(cfg: Config, p: Pair, events: seq<Event>)
    requires cfg.leftRef.connector != cfg.rightRef.connector && Underway(cfg, p) && cfg.resolver.skew >= 0
    requires !SendsNulls(cfg, p) && Answered(events)
    ensures Run(cfg, p, events).leftUpserts <= Owed(cfg, p) + 1
  {
    GetsStuckIff(cfg, p);
    StaysUnstuck(cfg, p, events);
    UnstuckIsBounded(cfg, p, events);
  }
}
