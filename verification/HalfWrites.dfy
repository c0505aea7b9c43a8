/** A conflict that writes both sides may land on the left and fail on the right. What the retry then
    decides, since nothing of the first decision was recorded (`reconcile` in internal/engine/pipeline.go). */
module HalfWrites {
  import opened Wrappers
  import opened Model
  import opened Digest
  import Ordering
  import Conflict
  import opened Reconcile
  import opened RetryLoop

  // ---- the flip ---------------------------------------------------------------------------

  /** When the first of two writes lands, the second fails, and the first happened to bring the left
      side back to its snapshot, the retry no longer sees a conflict: it copies the right side over
      the left, including fields whose policy had just decided for the left. */
  lemma HalfWriteFlipsTheWinner(cfg: Config, p: Pair, e: Event, f: string)
    requires Decision(cfg, p).action == Conflict.WriteBoth && e.fault == RightFails && !e.suppressed
    requires cfg.leftRef.connector != cfg.rightRef.connector && Unrecorded(cfg, p, Decision(cfg, p), e)
    requires p.leftSnap.Some?
    requires AgreeOn(Merge(p.left, Conflict.ToLeft(Decision(cfg, p))), p.leftSnap.value, cfg.names)
    requires f in cfg.names && !SameField(Merge(p.left, Conflict.ToLeft(Decision(cfg, p))), p.right, f)
    ensures
      var half := Process(cfg, p, e);
      && half.left == Merge(p.left, Conflict.ToLeft(Decision(cfg, p))) && half.right == p.right
      && Decision(cfg, half).action == Conflict.WriteLeft
      && Conflict.ToLeft(Decision(cfg, half)) == Conflict.Pick(p.right, cfg.names)
  {
    var half := Process(cfg, p, e);
    HalfProcessed(cfg, p, e);
    SnapshotHashDecidesFields(half.left, p.leftSnap.value, cfg.names);
    WriteBothNeedsConflict(cfg.resolver, LeftState(cfg, p), RightState(cfg, p), cfg.names);
    Conflict.NoDiffsIff(LeftState(cfg, half), RightState(cfg, p), cfg.names);
    RightOnly(cfg.resolver, LeftState(cfg, half), RightState(cfg, p), cfg.names,
              Conflict.Undecided(cfg.resolver, LeftState(cfg, half), RightState(cfg, p), cfg.names));
  }

  /** Neither write is on record any more, so both would make their call. A pair with nothing on record at all is
      such a pair. */
  ghost predicate Unrecorded(cfg: Config, p: Pair, res: Conflict.Resolution, e: Event)
  {
    && KeyFor(cfg, Left, Merge(p.left, Conflict.ToLeft(res))) !in p.committed - e.expired
    && KeyFor(cfg, Right, Merge(p.right, Conflict.ToRight(res))) !in p.committed - e.expired
  }

  lemma FreshIsUnrecorded(cfg: Config, p: Pair, res: Conflict.Resolution, e: Event)
    requires NoPriorKey(cfg, p)
    ensures Unrecorded(cfg, p, res, e)
  {}

  /** The left half has landed, the right side has not been reached and nothing was recorded. */
  lemma HalfProcessed(cfg: Config, p: Pair, e: Event)
    requires Decision(cfg, p).action == Conflict.WriteBoth && e.fault == RightFails && !e.suppressed
    requires cfg.leftRef.connector != cfg.rightRef.connector && Unrecorded(cfg, p, Decision(cfg, p), e)
    ensures
      var half := Process(cfg, p, e);
      && half.left == Merge(p.left, Conflict.ToLeft(Decision(cfg, p))) && half.leftAt == e.at
      && half.leftSnap == p.leftSnap
      && half.right == p.right && half.leftUpserts == p.leftUpserts + 1
      && RightState(cfg, half) == RightState(cfg, p)
      && LeftState(cfg, half) == StateOf(cfg, half.left, p.leftSnap, e.at)
      && (Underway(cfg, p) ==> Underway(cfg, half))
  {
    var q, res := Forgetting(p, e.expired), Decision(cfg, p);
    DecisionIgnoresKeys(cfg, p, q);
    BothAreSent(cfg, p);
    HalfApplied(cfg, q, res, e);
    if Underway(cfg, p) {
      ForgettingUnderway(cfg, p, e.expired);
      DecisionSends(cfg, p);
      LandingUnderway(cfg, q, Left, Conflict.ToLeft(res), e.at);
    }
  }

  lemma RightOnly(
    r: Conflict.Resolver, left: Conflict.State, right: Conflict.State, names: seq<string>, res: Conflict.Resolution)
    requires |res.diffs| > 0 && res.situation == Conflict.RightChanged
    ensures Conflict.Decide(r, left, right, names, res).action == Conflict.WriteLeft
    ensures Conflict.ToLeft(Conflict.Decide(r, left, right, names, res)) == Conflict.Pick(right.fields, names)
  {}

  lemma WriteBothNeedsConflict(r: Conflict.Resolver, left: Conflict.State, right: Conflict.State, names: seq<string>)
    requires Conflict.Resolve(r, left, right, names).action == Conflict.WriteBoth
    ensures left.Changed() && right.Changed()
  {
    BothNonEmpty(r, left, right, names, Conflict.Undecided(r, left, right, names));
  }

  lemma HalfApplied(cfg: Config, p: Pair, res: Conflict.Resolution, e: Event)
    requires cfg.leftRef.connector != cfg.rightRef.connector && res.action == Conflict.WriteBoth
    requires e.fault == RightFails
    requires Conflict.ToLeft(res) != map[] && Conflict.ToRight(res) != map[]
    requires KeyFor(cfg, Left, Merge(p.left, Conflict.ToLeft(res))) !in p.committed
    requires KeyFor(cfg, Right, Merge(p.right, Conflict.ToRight(res))) !in p.committed
    ensures Applied(cfg, p, res, e)
         == Landed(p, Left, Conflict.ToLeft(res), e.at, KeyFor(cfg, Left, Merge(p.left, Conflict.ToLeft(res))))
  {
    var forLeft, forRight := Conflict.ToLeft(res), Conflict.ToRight(res);
    KeysOfSidesDiffer(cfg, Left, Merge(p.left, forLeft), Merge(p.right, forRight));
    HalfWrite(cfg, p, forLeft, forRight, e);
  }

  // ---- exactly when the retry keeps to what was decided -----------------------------------------

  function Diffs(left: Conflict.State, right: Conflict.State, names: seq<string>): seq<Conflict.FieldDiff>
  {
    Conflict.DiffOf(left, right, Ordering.Sort(Self, names))
  }

  /** A first look at a conflict and the retry's: the left side before and after its half landed, and what
      is chosen for a field each time. Fields in `clocked` are decided by the clock, which read
      `first` and then `reading`; a field in `withdrawn` was emptied on the left because the right side had given it
      up. */
  datatype Retry = Retry(
    left: Conflict.State, left2: Conflict.State, right: Conflict.State, names: seq<string>,
    choose: Conflict.FieldDiff -> Conflict.Choice, again: Conflict.FieldDiff -> Conflict.Choice,
    clocked: set<string>, first: Conflict.Choice, reading: Conflict.Choice, withdrawn: set<string>) {

    function Sent(): Fields { Conflict.ForLeft(choose, Diffs(left, right, names)) }

    function Kept(): Fields { Conflict.ForRight(choose, Diffs(left, right, names)) }

    ghost predicate Valid()
    {
      && !Conflict.AnyBlocked(choose, Diffs(left, right, names))
      && left2.fields == Merge(left.fields, Sent()) && left2.base == left.base
      && (forall f :: f in Sent() ==> Sent()[f] == Conflict.At(right.fields, f))
      && (forall f :: f in names && f in clocked ==> again(Conflict.DiffAt(left2, right, f)) == reading)
      && (forall f :: f in names && f in clocked ==> choose(Conflict.DiffAt(left, right, f)) == first != Conflict.Leave)
      && (forall f :: f in names && f !in clocked && f !in Sent() ==>
            again(Conflict.DiffAt(left2, right, f)) == choose(Conflict.DiffAt(left, right, f)))
      && (forall f :: f in names && f !in clocked && f in Sent() && f !in right.fields ==>
            again(Conflict.DiffAt(left2, right, f)) == if f in withdrawn then Conflict.Blocked else Conflict.KeepRight)
      && (forall f :: f in withdrawn ==> f in names && f !in clocked && f in Sent() && f !in right.fields)
    }
  }

  /** Which disagreements are left: those nothing was sent for, and those whose value is now an explicit null. */
  lemma RetryDiff(r: Retry, f: string)
    requires r.Valid()
    ensures forall d :: d in Diffs(r.left2, r.right, r.names) && d.field == f ==>
      d == Conflict.DiffAt(r.left2, r.right, f)
    ensures Conflict.DiffAt(r.left2, r.right, f) in Diffs(r.left2, r.right, r.names)
       <==> && f in r.names
            && if f in r.Sent() then f !in r.right.fields else !SameField(r.left.fields, r.right.fields, f)
    ensures f in r.Sent() ==> Arrived(r.left2.fields, r.right.fields, f)
  {
    Conflict.DiffFor(r.left2, r.right, r.names, f);
  }

  /** A field nothing was sent for had been decided for the left, or was left alone. */
  lemma UnsentChoice(r: Retry, f: string)
    requires r.Valid() && f in r.names && f !in r.Sent() && !SameField(r.left.fields, r.right.fields, f)
    ensures r.choose(Conflict.DiffAt(r.left, r.right, f)) in {Conflict.KeepLeft, Conflict.Leave}
    ensures r.choose(Conflict.DiffAt(r.left, r.right, f)) == Conflict.KeepLeft ==> f in r.Kept()
  {
    var diffs := Diffs(r.left, r.right, r.names);
    Conflict.DiffFor(r.left, r.right, r.names, f);
    Conflict.ForLeftMembers(r.choose, diffs, f);
    Conflict.ForRightMembers(r.choose, diffs, f);
    Conflict.BlockedMembers(r.choose, diffs);
  }

  lemma KeptIsUnsent(r: Retry, f: string)
    requires r.Valid() && f in r.Kept()
    ensures f in r.names && f !in r.Sent() && !SameField(r.left.fields, r.right.fields, f)
  {
    var diffs := Diffs(r.left, r.right, r.names);
    Conflict.DiffFor(r.left, r.right, r.names, f);
    Conflict.ForLeftMembers(r.choose, diffs, f);
    Conflict.ForRightMembers(r.choose, diffs, f);
  }

  /** The clock has turned against `f`, which it had decided for the left. */
  predicate Turned(r: Retry, f: string)
  {
    r.reading == Conflict.KeepRight && f in r.Kept() && f in r.clocked && !Arrived(r.left.fields, r.right.fields, f)
  }

  /** Only such a field can still change on the left. */
  lemma RetrySends(r: Retry, f: string)
    requires r.Valid() && f in Conflict.ForLeft(r.again, Diffs(r.left2, r.right, r.names))
    requires !Arrived(r.left2.fields, r.right.fields, f)
    ensures Turned(r, f)
  {
    var diffs2 := Diffs(r.left2, r.right, r.names);
    Conflict.ForLeftMembers(r.again, diffs2, f);
    RetryDiff(r, f);
    UnsentChoice(r, f);
  }

  /** Once the clock has turned, only a withdrawn field keeps the retry from deciding. */
  lemma RetryBlocksIff(r: Retry)
    requires r.Valid() && r.reading == Conflict.KeepRight
    ensures Conflict.AnyBlocked(r.again, Diffs(r.left2, r.right, r.names)) <==> r.withdrawn != {}
  {
    var diffs2 := Diffs(r.left2, r.right, r.names);
    Conflict.BlockedMembers(r.again, diffs2);
    forall d | d in diffs2
      ensures r.again(d) == Conflict.Blocked <==> d.field in r.withdrawn
    {
      RetryDiff(r, d.field);
      Conflict.DiffFor(r.left2, r.right, r.names, d.field);
      assert d.field in r.names by {
        Conflict.DiffMembers(r.left2, r.right, Ordering.Sort(Self, r.names), d);
        Conflict.SortKeepsMembers(r.names, d.field);
      }
      if d.field !in r.Sent() && d.field !in r.clocked { UnsentChoice(r, d.field); }
    }
    if f :| f in r.withdrawn {
      RetryDiff(r, f);
      assert r.again(Conflict.DiffAt(r.left2, r.right, f)) == Conflict.Blocked;
    }
  }

  lemma TurnedIsSent(r: Retry, f: string)
    requires r.Valid() && Turned(r, f)
    ensures f in Conflict.ForLeft(r.again, Diffs(r.left2, r.right, r.names))
    ensures !Arrived(r.left2.fields, r.right.fields, f)
  {
    KeptIsUnsent(r, f);
    RetryDiff(r, f);
    Conflict.ForLeftMembers(r.again, Diffs(r.left2, r.right, r.names), f);
  }

  ghost predicate KeepsDecision(r: Retry) { (forall f :: !Turned(r, f)) || r.withdrawn != {} }

  lemma RetryChoices(r: Retry)
    requires r.Valid()
    ensures
      var diffs2 := Diffs(r.left2, r.right, r.names);
      || Conflict.AnyBlocked(r.again, diffs2)
      || (forall f :: f in Conflict.ForLeft(r.again, diffs2) ==> Arrived(r.left2.fields, r.right.fields, f))
      <==> KeepsDecision(r)
  {
    var diffs2 := Diffs(r.left2, r.right, r.names);
    if f :| Turned(r, f) {
      RetryBlocksIff(r);
      TurnedIsSent(r, f);
    } else {
      forall f | f in Conflict.ForLeft(r.again, diffs2)
        ensures Arrived(r.left2.fields, r.right.fields, f)
      {
        if !Arrived(r.left2.fields, r.right.fields, f) { RetrySends(r, f); }
      }
    }
  }

  /** How a conflict is settled field by field under either form of the policy. */
  function Chooser(
    r: Conflict.Resolver, left: Conflict.State, right: Conflict.State): Conflict.FieldDiff -> Conflict.Choice
  {
    if |r.perField| > 0 then Conflict.ByPolicy(r, left, right) else Conflict.ByMerge(left, right)
  }

  function Clocked(r: Conflict.Resolver, names: seq<string>): set<string>
  {
    set f | f in names && |r.perField| > 0 && r.PolicyFor(f) == Conflict.NewestWins
  }

  /** Fields the half write emptied on the left because the right side had given them up since the base. */
  function Withdrawn(r: Conflict.Resolver, left: Fields, right: Fields, names: seq<string>, sent: Fields): set<string>
  {
    set f |
      f in sent && f in names && f !in right && r.PolicyFor(f) == Conflict.FieldLevel && Conflict.At(left, f) != Null
  }

  function RetryOf(
    r: Conflict.Resolver, left: Conflict.State, left2: Conflict.State, right: Conflict.State,
    names: seq<string>): Retry
  {
    var sent := Conflict.ForLeft(Chooser(r, left, right), Diffs(left, right, names));
    Retry(left, left2, right, names, Chooser(r, left, right), Chooser(r, left2, right), Clocked(r, names),
          Conflict.ClockChoice(r, left, right), Conflict.ClockChoice(r, left2, right),
          Withdrawn(r, left.fields, right.fields, names, sent))
  }

  /** Only field-by-field settling writes both sides. */
  lemma BothMeansSettled(
    r: Conflict.Resolver, left: Conflict.State, right: Conflict.State, names: seq<string>, res: Conflict.Resolution)
    requires Conflict.Blank(res) && Conflict.Decide(r, left, right, names, res).action == Conflict.WriteBoth
    ensures |r.perField| == 0 ==> r.defaultPolicy == Conflict.FieldLevel && left.HasBase() && right.HasBase()
    ensures !Conflict.AnyBlocked(Chooser(r, left, right), res.diffs) && |res.diffs| > 0
    ensures
      var out := Conflict.Decide(r, left, right, names, res);
      && Conflict.ToLeft(out) == Conflict.ForLeft(Chooser(r, left, right), res.diffs)
      && Conflict.ToRight(out) == Conflict.ForRight(Chooser(r, left, right), res.diffs)
  {}

  /** What a second look at a conflict sends to the left. */
  lemma SettledAgain(
    r: Conflict.Resolver, left: Conflict.State, right: Conflict.State, names: seq<string>, res: Conflict.Resolution)
    requires Conflict.Blank(res) && res.situation == Conflict.BothChanged
    requires |r.perField| == 0 ==> r.defaultPolicy == Conflict.FieldLevel && left.HasBase() && right.HasBase()
    ensures Conflict.ToLeft(Conflict.Decide(r, left, right, names, res))
         == if Conflict.AnyBlocked(Chooser(r, left, right), res.diffs) then map[]
           else Conflict.ForLeft(Chooser(r, left, right), res.diffs)
  {
    if |res.diffs| > 0 {
      if |r.perField| > 0 {
        Conflict.SettledWrites(res, Conflict.ByPolicy(r, left, right));
      } else {
        Conflict.SettledWrites(res.(policy := Conflict.FieldLevel), Conflict.ByMerge(left, right));
      }
    }
  }

  ghost predicate HalfDone(
    r: Conflict.Resolver, left: Conflict.State, left2: Conflict.State, right: Conflict.State, names: seq<string>,
    sent: Fields)
  {
    && sent == Conflict.ForLeft(Chooser(r, left, right), Diffs(left, right, names))
    && !Conflict.AnyBlocked(Chooser(r, left, right), Diffs(left, right, names))
    && (|r.perField| == 0 ==> r.defaultPolicy == Conflict.FieldLevel && left.HasBase() && right.HasBase())
    && left2.fields == Merge(left.fields, sent) && left2.base == left.base && left2.synced == left.synced
    && (forall f :: f in sent ==> sent[f] == Conflict.At(right.fields, f))
  }

  lemma SameDiff(left: Conflict.State, left2: Conflict.State, right: Conflict.State, f: string)
    requires left2.base == left.base && SameField(left2.fields, left.fields, f)
    ensures Conflict.DiffAt(left2, right, f) == Conflict.DiffAt(left, right, f)
  {}

  /** The same disagreement is chosen as before, unless the clock decides it. */
  lemma ChooserRereads(
    r: Conflict.Resolver, left: Conflict.State, left2: Conflict.State, right: Conflict.State, names: seq<string>,
    d: Conflict.FieldDiff)
    requires left2.synced == left.synced && d.field in names
    ensures Chooser(r, left2, right)(d)
         == if d.field in Clocked(r, names) then Conflict.ClockChoice(r, left2, right) else Chooser(r, left, right)(d)
    ensures d.field in Clocked(r, names) ==>
      Chooser(r, left, right)(d) == Conflict.ClockChoice(r, left, right) != Conflict.Leave
  {}

  /** A field nothing was sent for is chosen as before, unless the clock decides it. */
  lemma ChosenAgain(
    r: Conflict.Resolver, left: Conflict.State, left2: Conflict.State, right: Conflict.State, names: seq<string>,
    sent: Fields, f: string)
    requires left2.fields == Merge(left.fields, sent) && left2.base == left.base && left2.synced == left.synced
    requires f in names
    ensures f in Clocked(r, names) ==>
      && Chooser(r, left2, right)(Conflict.DiffAt(left2, right, f)) == Conflict.ClockChoice(r, left2, right)
      && Chooser(r, left, right)(Conflict.DiffAt(left, right, f))
        == Conflict.ClockChoice(r, left, right) != Conflict.Leave
    ensures f !in Clocked(r, names) && f !in sent ==>
      Chooser(r, left2, right)(Conflict.DiffAt(left2, right, f))
        == Chooser(r, left, right)(Conflict.DiffAt(left, right, f))
  {
    ChooserRereads(r, left, left2, right, names, Conflict.DiffAt(left, right, f));
    ChooserRereads(r, left, left2, right, names, Conflict.DiffAt(left2, right, f));
    if f !in sent { SameDiff(left, left2, right, f); }
  }

  /** Chosen for the right side once, a field is chosen so again unless field level now sees edits on both sides. */
  lemma ChosenRightAgain(
    r: Conflict.Resolver, left: Conflict.State, left2: Conflict.State, right: Conflict.State, names: seq<string>,
    d: Conflict.FieldDiff, d2: Conflict.FieldDiff)
    requires left2.synced == left.synced && d.field == d2.field && d.field in names && d.field !in Clocked(r, names)
    requires d2.rightChanged == d.rightChanged && Chooser(r, left, right)(d) == Conflict.KeepRight
    requires |r.perField| == 0 ==> r.defaultPolicy == Conflict.FieldLevel
    ensures Chooser(r, left2, right)(d2) ==
      if r.PolicyFor(d.field) == Conflict.FieldLevel && d2.leftChanged then Conflict.Blocked else Conflict.KeepRight
    ensures r.PolicyFor(d.field) == Conflict.FieldLevel ==> !d.leftChanged
  {
    assert |r.perField| == 0 ==> r.perField == map[];
  }

  lemma SentWasChosen(r: Conflict.Resolver, left: Conflict.State, right: Conflict.State, names: seq<string>, f: string)
    requires f in Conflict.ForLeft(Chooser(r, left, right), Diffs(left, right, names))
    ensures Chooser(r, left, right)(Conflict.DiffAt(left, right, f)) == Conflict.KeepRight
    ensures f in names && !SameField(left.fields, right.fields, f)
  {
    Conflict.DiffFor(left, right, names, f);
    Conflict.ForLeftMembers(Chooser(r, left, right), Diffs(left, right, names), f);
  }

  /** A field the right side lacks was sent as null; under field level that now looks like an edit of the left's own. */
  lemma NulledAgain(
    r: Conflict.Resolver, left: Conflict.State, left2: Conflict.State, right: Conflict.State, names: seq<string>,
    sent: Fields, f: string)
    requires HalfDone(r, left, left2, right, names, sent) && f in names && f in sent && f !in right.fields
    requires f !in Clocked(r, names)
    ensures Chooser(r, left2, right)(Conflict.DiffAt(left2, right, f)) ==
      if f in Withdrawn(r, left.fields, right.fields, names, sent) then Conflict.Blocked else Conflict.KeepRight
  {
    SentWasChosen(r, left, right, names, f);
    ChosenRightAgain(r, left, left2, right, names, Conflict.DiffAt(left, right, f), Conflict.DiffAt(left2, right, f));
    NullIsAnEdit(left, left2, f);
  }

  lemma NullIsAnEdit(left: Conflict.State, left2: Conflict.State, f: string)
    requires left2.base == left.base && f in left.fields && f in left2.fields && left2.fields[f] == Null
    ensures !left.FieldChanged(f) ==> (left2.FieldChanged(f) <==> left.fields[f] != Null)
  {
    Conflict.FieldChangedIff(left, f);
    Conflict.FieldChangedIff(left2, f);
  }

  lemma RetryIsValid(
    r: Conflict.Resolver, left: Conflict.State, left2: Conflict.State, right: Conflict.State, names: seq<string>,
    sent: Fields)
    requires HalfDone(r, left, left2, right, names, sent)
    ensures RetryOf(r, left, left2, right, names).Valid()
  {
    forall f | f in names
      ensures f in Clocked(r, names) ==>
        && Chooser(r, left2, right)(Conflict.DiffAt(left2, right, f)) == Conflict.ClockChoice(r, left2, right)
        && Chooser(r, left, right)(Conflict.DiffAt(left, right, f))
          == Conflict.ClockChoice(r, left, right) != Conflict.Leave
      ensures f !in Clocked(r, names) && f !in sent ==>
        Chooser(r, left2, right)(Conflict.DiffAt(left2, right, f))
          == Chooser(r, left, right)(Conflict.DiffAt(left, right, f))
      ensures f in sent && f !in right.fields && f !in Clocked(r, names) ==>
        Chooser(r, left2, right)(Conflict.DiffAt(left2, right, f)) ==
        if f in Withdrawn(r, left.fields, right.fields, names, sent) then Conflict.Blocked else Conflict.KeepRight
    {
      ChosenAgain(r, left, left2, right, names, sent, f);
      if f in sent && f !in right.fields && f !in Clocked(r, names) {
        NulledAgain(r, left, left2, right, names, sent, f);
      }
    }
  }

  /** What the retry changes on the left while both sides still look edited. */
  lemma RetryIff(cfg: Config, left: Conflict.State, left2: Conflict.State, right: Conflict.State, sent: Fields)
    requires HalfDone(cfg.resolver, left, left2, right, cfg.names, sent) && left2.Changed() && right.Changed()
    ensures
      var retry := Conflict.ToLeft(Conflict.Resolve(cfg.resolver, left2, right, cfg.names));
      Merge(left2.fields, retry) == left2.fields
      <==> KeepsDecision(RetryOf(cfg.resolver, left, left2, right, cfg.names))
  {
    var r, res2 := cfg.resolver, Conflict.Undecided(cfg.resolver, left2, right, cfg.names);
    var retry := Conflict.ToLeft(Conflict.Resolve(r, left2, right, cfg.names));
    RetryIsValid(r, left, left2, right, cfg.names, sent);
    RetryChoices(RetryOf(r, left, left2, right, cfg.names));
    SettledAgain(r, left2, right, cfg.names, res2);
    SettledCarries(cfg, left2, right, Chooser(r, left2, right));
    MergeChangesNothing(cfg, left2.fields, right.fields, retry);
  }

  lemma MergeChangesNothing(cfg: Config, left: Fields, right: Fields, values: Fields)
    requires Carried(cfg, right, values)
    ensures Merge(left, values) == left <==> forall f :: f in values ==> Arrived(left, right, f)
  {
    if Merge(left, values) == left {
      forall f | f in values
        ensures Arrived(left, right, f)
      {
        assert Merge(left, values)[f] == values[f];
      }
    }
  }

  /** The half write restored the left snapshot: the right side alone looks changed and is copied over. */
  lemma RetryCopiesRight(cfg: Config, left2: Conflict.State, right: Conflict.State)
    requires !left2.Changed() && right.Changed()
    ensures
      var retry := Conflict.ToLeft(Conflict.Resolve(cfg.resolver, left2, right, cfg.names));
      Merge(left2.fields, retry) == left2.fields
      <==> forall f :: f in cfg.names && f in right.fields ==> SameField(left2.fields, right.fields, f)
  {
    var res := Conflict.Undecided(cfg.resolver, left2, right, cfg.names);
    if |res.diffs| == 0 {
      Conflict.NoDiffsIff(left2, right, cfg.names);
      assert Merge(left2.fields, map[]) == left2.fields;
    } else {
      RightOnly(cfg.resolver, left2, right, cfg.names, res);
      PickCarries(cfg, right.fields);
      MergeChangesNothing(cfg, left2.fields, right.fields, Conflict.Pick(right.fields, cfg.names));
    }
  }

  /** The retry will change nothing more on the left. When the half that lands restores the left snapshot,
      the right side must agree with it on every field it has. Otherwise the clock must not have turned
      against a field it had decided for the left, or a withdrawn field stops the retry altogether. */
  ghost predicate RetryHarmless(cfg: Config, p: Pair, res: Conflict.Resolution, at: int)
  {
    HarmlessOn(cfg, p.left, p.right, res, Restores(cfg, p, res), p.rightAt - at > cfg.resolver.skew)
  }

  ghost predicate Restores(cfg: Config, p: Pair, res: Conflict.Resolution)
  {
    p.leftSnap.Some? && AgreeOn(Merge(p.left, Conflict.ToLeft(res)), p.leftSnap.value, cfg.names)
  }

  ghost predicate HarmlessOn(
    cfg: Config, left: Fields, right: Fields, res: Conflict.Resolution, restored: bool, late: bool)
  {
    if restored then
      forall f :: f in cfg.names && f in right ==> SameField(Merge(left, Conflict.ToLeft(res)), right, f)
    else
      || Withdrawn(cfg.resolver, left, right, cfg.names, Conflict.ToLeft(res)) != {}
      || !late
      || !exists f :: f in Conflict.ToRight(res) && f in Clocked(cfg.resolver, cfg.names) && !Arrived(left, right, f)
  }

  lemma TurnedIff(
    cfg: Config, left: Conflict.State, left2: Conflict.State, right: Conflict.State, res: Conflict.Resolution)
    requires cfg.resolver.skew >= 0
    requires Conflict.ToRight(res) == RetryOf(cfg.resolver, left, left2, right, cfg.names).Kept()
    ensures (exists f :: Turned(RetryOf(cfg.resolver, left, left2, right, cfg.names), f))
       <==> && right.updatedAt - left2.updatedAt > cfg.resolver.skew
            && exists f ::
                 && f in Conflict.ToRight(res) && f in Clocked(cfg.resolver, cfg.names)
                 && !Arrived(left.fields, right.fields, f)
  {
    var r := RetryOf(cfg.resolver, left, left2, right, cfg.names);
    ClockReads(cfg.resolver, left2, right);
    if right.updatedAt - left2.updatedAt > cfg.resolver.skew {
      if f :|
        f in Conflict.ToRight(res) && f in Clocked(cfg.resolver, cfg.names) && !Arrived(left.fields, right.fields, f) {
        assert Turned(r, f);
      }
    }
  }

  lemma ClockReads(r: Conflict.Resolver, left: Conflict.State, right: Conflict.State)
    requires r.skew >= 0
    ensures Conflict.ClockChoice(r, left, right) == Conflict.KeepRight <==> right.updatedAt - left.updatedAt > r.skew
  {}

  /** The two cases of a retry, on the states it compares. */
  lemma RetryKeepsIff(
    cfg: Config, left: Conflict.State, left2: Conflict.State, right: Conflict.State, res: Conflict.Resolution)
    requires HalfDone(cfg.resolver, left, left2, right, cfg.names, Conflict.ToLeft(res)) && cfg.resolver.skew >= 0
    requires right.Changed()
    requires Conflict.ToRight(res) == RetryOf(cfg.resolver, left, left2, right, cfg.names).Kept()
    ensures
      var retry := Conflict.ToLeft(Conflict.Resolve(cfg.resolver, left2, right, cfg.names));
      Merge(left2.fields, retry) == left2.fields
      <==> HarmlessOn(cfg, left.fields, right.fields, res, !left2.Changed(),
                      right.updatedAt - left2.updatedAt > cfg.resolver.skew)
  {
    if left2.Changed() {
      RetryIff(cfg, left, left2, right, Conflict.ToLeft(res));
      TurnedIff(cfg, left, left2, right, res);
    } else {
      RetryCopiesRight(cfg, left2, right);
    }
  }

  lemma HalfIsDone(cfg: Config, p: Pair, half: Pair, at: int)
    requires Decision(cfg, p).action == Conflict.WriteBoth
    requires half.left == Merge(p.left, Conflict.ToLeft(Decision(cfg, p)))
    requires LeftState(cfg, half) == StateOf(cfg, half.left, p.leftSnap, at)
    ensures HalfDone(cfg.resolver, LeftState(cfg, p), LeftState(cfg, half), RightState(cfg, p), cfg.names,
                     Conflict.ToLeft(Decision(cfg, p)))
    ensures Conflict.ToRight(Decision(cfg, p))
      == RetryOf(cfg.resolver, LeftState(cfg, p), LeftState(cfg, half), RightState(cfg, p), cfg.names).Kept()
  {
    var left, right := LeftState(cfg, p), RightState(cfg, p);
    BothMeansSettled(cfg.resolver, left, right, cfg.names, Conflict.Undecided(cfg.resolver, left, right, cfg.names));
    DecisionSends(cfg, p);
  }

  lemma RestoredIff(cfg: Config, left: Fields, snap: Option<Fields>, at: int)
    ensures !StateOf(cfg, left, snap, at).Changed() <==> snap.Some? && AgreeOn(left, snap.value, cfg.names)
  {
    if snap.Some? { SnapshotHashDecidesFields(left, snap.value, cfg.names); }
  }

  lemma HalfRetried(cfg: Config, p: Pair, half: Pair, at: int)
    requires Decision(cfg, p).action == Conflict.WriteBoth && cfg.resolver.skew >= 0
    requires half.left == Merge(p.left, Conflict.ToLeft(Decision(cfg, p)))
    requires RightState(cfg, half) == RightState(cfg, p)
    requires LeftState(cfg, half) == StateOf(cfg, half.left, p.leftSnap, at)
    ensures Merge(half.left, Conflict.ToLeft(Decision(cfg, half))) == half.left
      <==> RetryHarmless(cfg, p, Decision(cfg, p), at)
  {
    HalfIsDone(cfg, p, half, at);
    WriteBothNeedsConflict(cfg.resolver, LeftState(cfg, p), RightState(cfg, p), cfg.names);
    RestoredIff(cfg, half.left, p.leftSnap, at);
    RetriedOn(cfg, p, half, LeftState(cfg, p), LeftState(cfg, half), RightState(cfg, p), Decision(cfg, p), at);
  }

  lemma RetriedOn(cfg: Config, p: Pair, half: Pair, left: Conflict.State, left2: Conflict.State, right: Conflict.State,
                  res: Conflict.Resolution, at: int)
    requires HalfDone(cfg.resolver, left, left2, right, cfg.names, Conflict.ToLeft(res)) && cfg.resolver.skew >= 0
    requires right.Changed()
    requires Conflict.ToRight(res) == RetryOf(cfg.resolver, left, left2, right, cfg.names).Kept()
    requires left.fields == p.left && right.fields == p.right && right.updatedAt == p.rightAt
    requires left2.fields == half.left && left2.updatedAt == at && (!left2.Changed() <==> Restores(cfg, p, res))
    ensures Merge(half.left, Conflict.ToLeft(Conflict.Resolve(cfg.resolver, left2, right, cfg.names))) == half.left
       <==> RetryHarmless(cfg, p, res, at)
  {
    RetryKeepsIff(cfg, left, left2, right, res);
  }

  /** The retry of a half-written pair changes nothing more on the left, and so keeps to what was decided, if
      and only if `RetryHarmless` held of the pair before the first write went out. */
  lemma HalfWriteKeepsTheDecisionIff(cfg: Config, p: Pair, e: Event)
    requires Decision(cfg, p).action == Conflict.WriteBoth && e.fault == RightFails && !e.suppressed
    requires cfg.leftRef.connector != cfg.rightRef.connector && Unrecorded(cfg, p, Decision(cfg, p), e)
    requires cfg.resolver.skew >= 0
    ensures
      var half := Process(cfg, p, e);
      Merge(half.left, Conflict.ToLeft(Decision(cfg, half))) == half.left
      <==> RetryHarmless(cfg, p, Decision(cfg, p), e.at)
  {
    HalfProcessed(cfg, p, e);
    HalfRetried(cfg, p, Process(cfg, p, e), e.at);
  }

  const Demo := Config(
    "s", "contact", Ref("l", "contact", "1"), Ref("r", "contact", "2"), ["a", "b"],
    Conflict.Resolver(Conflict.Review, map["a" := Conflict.LeftWins, "b" := Conflict.RightWins], 2))

  const DemoBase: Fields := map["a" := Str("x"), "b" := Str("y")]

  /** The left side edited `b`, the right side edited `a`; `a` is the left side's to decide. */
  const DemoPair := Pair(
    map["a" := Str("x"), "b" := Str("z")], 0, Some(DemoBase),
    map["a" := Str("w"), "b" := Str("y")], 0, Some(DemoBase), {}, 0, 0)

  lemma DemoBothChanged()
    ensures LeftState(Demo, DemoPair).Changed() && RightState(Demo, DemoPair).Changed()
  {
    assert "a" in Demo.names && "b" in Demo.names;
    assert !SameField(DemoPair.left, DemoBase, "b") && !SameField(DemoPair.right, DemoBase, "a");
    SnapshotHashDecidesFields(DemoPair.left, DemoBase, Demo.names);
    SnapshotHashDecidesFields(DemoPair.right, DemoBase, Demo.names);
  }

  ghost predicate TwoFields(r: Conflict.Resolver, l: Conflict.State, s: Conflict.State, names: seq<string>)
  {
    && (forall f :: f in names <==> f == "a" || f == "b")
    && r.PolicyFor("a") == Conflict.LeftWins && r.PolicyFor("b") == Conflict.RightWins
    && !SameField(l.fields, s.fields, "a") && !SameField(l.fields, s.fields, "b")
  }

  lemma TableField(r: Conflict.Resolver, l: Conflict.State, s: Conflict.State, names: seq<string>, f: string)
    requires TwoFields(r, l, s, names)
    ensures
      var diffs := Conflict.DiffOf(l, s, Ordering.Sort(Self, names));
      var choose := Conflict.ByPolicy(r, l, s);
      && (f in Conflict.ForLeft(choose, diffs) <==> f == "b")
      && (f in Conflict.ForRight(choose, diffs) <==> f == "a")
      && (f == "b" ==> Conflict.ForLeft(choose, diffs)[f] == Conflict.At(s.fields, f))
      && (f == "a" ==> Conflict.ForRight(choose, diffs)[f] == Conflict.At(l.fields, f))
  {
    var diffs := Conflict.DiffOf(l, s, Ordering.Sort(Self, names));
    var choose := Conflict.ByPolicy(r, l, s);
    Conflict.DiffFor(l, s, names, f);
    Conflict.ForLeftMembers(choose, diffs, f);
    Conflict.ForRightMembers(choose, diffs, f);
  }

  lemma TableUnblocked(r: Conflict.Resolver, l: Conflict.State, s: Conflict.State, names: seq<string>)
    requires TwoFields(r, l, s, names)
    ensures
      var diffs := Conflict.DiffOf(l, s, Ordering.Sort(Self, names));
      |diffs| > 0 && !Conflict.AnyBlocked(Conflict.ByPolicy(r, l, s), diffs)
  {
    var diffs := Conflict.DiffOf(l, s, Ordering.Sort(Self, names));
    var choose := Conflict.ByPolicy(r, l, s);
    Conflict.DiffFor(l, s, names, "a");
    Conflict.BlockedMembers(choose, diffs);
    forall d | d in diffs
      ensures choose(d) != Conflict.Blocked
    {
      Conflict.DiffMembers(l, s, Ordering.Sort(Self, names), d);
      Conflict.SortKeepsMembers(names, d.field);
    }
  }

  /** What a table that decides `a` for the left and `b` for the right collects. */
  lemma TwoFieldTable(r: Conflict.Resolver, l: Conflict.State, s: Conflict.State, names: seq<string>)
    requires TwoFields(r, l, s, names)
    ensures
      var diffs := Conflict.DiffOf(l, s, Ordering.Sort(Self, names));
      && Conflict.ForLeft(Conflict.ByPolicy(r, l, s), diffs) == map["b" := Conflict.At(s.fields, "b")]
      && Conflict.ForRight(Conflict.ByPolicy(r, l, s), diffs) == map["a" := Conflict.At(l.fields, "a")]
  {
    var diffs := Conflict.DiffOf(l, s, Ordering.Sort(Self, names));
    var forLeft := Conflict.ForLeft(Conflict.ByPolicy(r, l, s), diffs);
    var forRight := Conflict.ForRight(Conflict.ByPolicy(r, l, s), diffs);
    forall f: string
      ensures f in forLeft <==> f == "b"
      ensures f in forRight <==> f == "a"
    {
      TableField(r, l, s, names, f);
    }
    TableField(r, l, s, names, "a");
    TableField(r, l, s, names, "b");
    OnlyKey(forLeft, "b", Conflict.At(s.fields, "b"));
    OnlyKey(forRight, "a", Conflict.At(l.fields, "a"));
  }

  lemma OnlyKey(m: Fields, k: string, v: Value)
    requires (forall f :: f in m <==> f == k) && m[k] == v
    ensures m == map[k := v]
  {}

  lemma SettledBoth(res: Conflict.Resolution, choose: Conflict.FieldDiff -> Conflict.Choice)
    requires !Conflict.AnyBlocked(choose, res.diffs)
    requires Conflict.ForLeft(choose, res.diffs) != map[] && Conflict.ForRight(choose, res.diffs) != map[]
    ensures Conflict.Settled(res, choose).action == Conflict.WriteBoth
    ensures Conflict.ToLeft(Conflict.Settled(res, choose)) == Conflict.ForLeft(choose, res.diffs)
    ensures Conflict.ToRight(Conflict.Settled(res, choose)) == Conflict.ForRight(choose, res.diffs)
  {}

  /** Two fields on which the sides disagree, one decided for each. */
  lemma TwoFieldDecision(r: Conflict.Resolver, l: Conflict.State, s: Conflict.State, names: seq<string>)
    requires TwoFields(r, l, s, names) && l.Changed() && s.Changed() && l.HasBase() && s.HasBase() && |r.perField| > 0
    ensures
      var out := Conflict.Resolve(r, l, s, names);
      && out.action == Conflict.WriteBoth
      && Conflict.ToLeft(out) == map["b" := Conflict.At(s.fields, "b")]
      && Conflict.ToRight(out) == map["a" := Conflict.At(l.fields, "a")]
  {
    var res := Conflict.Undecided(r, l, s, names);
    TableUnblocked(r, l, s, names);
    TwoFieldTable(r, l, s, names);
    Conflict.ConflictSettles(r, l, s, names, res);
    SettledBoth(res, Conflict.ByPolicy(r, l, s)) by {
      assert "b" in map["b" := Conflict.At(s.fields, "b")] && "a" in map["a" := Conflict.At(l.fields, "a")];
    }
  }

  lemma DemoTable(l: Conflict.State, s: Conflict.State)
    requires !SameField(l.fields, s.fields, "a") && !SameField(l.fields, s.fields, "b")
    ensures TwoFields(Demo.resolver, l, s, Demo.names) && |Demo.resolver.perField| > 0
  {
    assert Demo.names[0] == "a" && Demo.names[1] == "b";
    assert "a" in Demo.resolver.perField && "b" in Demo.resolver.perField;
  }

  lemma DemoDecision()
    ensures Decision(Demo, DemoPair).action == Conflict.WriteBoth
    ensures Conflict.ToLeft(Decision(Demo, DemoPair)) == map["b" := Str("y")]
    ensures Conflict.ToRight(Decision(Demo, DemoPair)) == map["a" := Str("x")]
  {
    DemoBothChanged();
    DemoTable(LeftState(Demo, DemoPair), RightState(Demo, DemoPair));
    TwoFieldDecision(Demo.resolver, LeftState(Demo, DemoPair), RightState(Demo, DemoPair), Demo.names);
  }

  lemma DemoFacts()
    ensures Merge(DemoPair.left, map["b" := Str("y")]) == DemoBase
    ensures !SameField(DemoBase, DemoPair.right, "a")
    ensures "a" in Demo.names
    ensures Demo.leftRef.connector != Demo.rightRef.connector
  {}

  lemma DemoPicksAll()
    ensures Conflict.Pick(DemoPair.right, Demo.names) == DemoPair.right
  {}

  /** A concrete pair: after one failure and one retry the left side's own value of `a`, which
      its policy had kept, is overwritten. */
  lemma HalfWriteExample(e: Event)
    requires e.fault == RightFails && !e.suppressed
    ensures Demo.resolver.PolicyFor("a") == Conflict.LeftWins
    ensures DemoPair.right["a"] != DemoPair.left["a"]
    ensures Conflict.ToLeft(Decision(Demo, Process(Demo, DemoPair, e))) == DemoPair.right
  {
    DemoDecision();
    DemoFacts();
    DemoPicksAll();
    FreshIsUnrecorded(Demo, DemoPair, Decision(Demo, DemoPair), e);
    HalfWriteFlipsTheWinner(Demo, DemoPair, e, "a");
  }

  // ---- a pair that is stuck ----------------------------------------------------------------------

  const NulledBase: Fields := map["a" := Str("q"), "b" := Str("y")]

  /** Both sides edited `a`, which is the left side's to decide; the right side has given up `b`, which is its
      own to decide, and the left side already holds the null that says so. */
  const NulledPair := Pair(
    map["a" := Str("x"), "b" := Null], 0, Some(NulledBase), map["a" := Str("w")], 0, Some(NulledBase), {}, 0, 0)

  lemma NulledChanged()
    ensures LeftState(Demo, NulledPair).Changed() && RightState(Demo, NulledPair).Changed()
    ensures !SameField(NulledPair.left, NulledPair.right, "a") && !SameField(NulledPair.left, NulledPair.right, "b")
  {
    assert Demo.names[0] == "a";
    assert !SameField(NulledPair.left, NulledBase, "a") && !SameField(NulledPair.right, NulledBase, "a");
    SnapshotHashDecidesFields(NulledPair.left, NulledBase, Demo.names);
    SnapshotHashDecidesFields(NulledPair.right, NulledBase, Demo.names);
  }

  lemma NulledIsStuck()
    ensures Stuck(Demo, NulledPair)
  {
    NulledChanged();
    DemoTable(LeftState(Demo, NulledPair), RightState(Demo, NulledPair));
    TwoFieldDecision(Demo.resolver, LeftState(Demo, NulledPair), RightState(Demo, NulledPair), Demo.names);
    assert Arrived(NulledPair.left, NulledPair.right, "b");
  }

  /** While the right side keeps failing, every lifetime of the record lands the same null on the left once
      more, without limit. */
  lemma NullsWithoutLimit(n: nat)
    ensures Reaches(Demo, NulledPair, n)
  {
    NulledIsStuck();
    FreshIsUnderway(Demo, NulledPair);
    var events := StuckForever(Demo, NulledPair, n);
  }
}
