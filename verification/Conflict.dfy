/** What to do about a linked pair whose sides may both have moved since they last agreed
    (internal/conflict/conflict.go). */
module Conflict {
  import opened Wrappers
  import opened Ordering
  import opened Model
  import opened Digest

  datatype Policy = LeftWins | RightWins | NewestWins | FieldLevel | Review

  datatype Situation = Unchanged | LeftChanged | RightChanged | BothChanged

  datatype Action = Nothing | WriteLeft | WriteRight | WriteBoth | Escalate

  datatype FieldDiff = FieldDiff(field: string, left: Value, right: Value, leftChanged: bool, rightChanged: bool)

  /** One side's view of a record; `synced` is `NoHash` on a pair that never synced. */
  datatype State = State(fields: Fields, hash: Hash, base: Fields, synced: Hash, updatedAt: int) {

    predicate Changed() { hash != synced }

    predicate HasBase() { synced != NoHash }

    predicate FieldChanged(name: string)
    {
      (name in fields) != (name in base) || !Equal(At(fields, name), At(base, name))
    }
  }

  datatype Resolution = Resolution(
    situation: Situation,
    action: Action,
    policy: Policy,
    values: Fields,
    leftValues: Fields,
    rightValues: Fields,
    diffs: seq<FieldDiff>)

  datatype Resolver = Resolver(defaultPolicy: Policy, perField: map<string, Policy>, skew: int) {

    function PolicyFor(field: string): Policy
    {
      if field in perField then perField[field] else defaultPolicy
    }
  }

  /** Reading a missing key of a Go map yields nil. */
  function At(fields: Fields, name: string): Value { if name in fields then fields[name] else Null }

  predicate Equal(a: Value, b: Value)
  {
    SnapshotHash(map["v" := a], ["v"]) == SnapshotHash(map["v" := b], ["v"])
  }

  lemma EqualIsEquality(a: Value, b: Value)
    ensures Equal(a, b) <==> a == b
  {
    SnapshotHashDecidesFields(map["v" := a], map["v" := b], ["v"]);
    if Equal(a, b) { assert SameField(map["v" := a], map["v" := b], "v"); }
  }

  // ---- diff, pick and classify --------------------------------------------------------

  predicate Differs(left: State, right: State, name: string)
  {
    (name in left.fields) != (name in right.fields) || !Equal(At(left.fields, name), At(right.fields, name))
  }

  lemma DiffersIff(left: State, right: State, name: string)
    ensures Differs(left, right, name) <==> !SameField(left.fields, right.fields, name)
  {
    EqualIsEquality(At(left.fields, name), At(right.fields, name));
  }

  lemma FieldChangedIff(s: State, name: string)
    ensures s.FieldChanged(name) <==> !SameField(s.fields, s.base, name)
  {
    EqualIsEquality(At(s.fields, name), At(s.base, name));
  }

  function DiffAt(left: State, right: State, name: string): FieldDiff
  {
    FieldDiff(name, At(left.fields, name), At(right.fields, name), left.FieldChanged(name), right.FieldChanged(name))
  }

  function DiffOf(left: State, right: State, sorted: seq<string>): seq<FieldDiff>
  {
    if |sorted| == 0 then []
    else
      var last := sorted[|sorted| - 1];
      DiffOf(left, right, sorted[..|sorted| - 1])
      + if Differs(left, right, last) then [DiffAt(left, right, last)] else []
  }

  /** Every mapped field the sides disagree about, in field order. */
  method Diff(left: State, right: State, names: seq<string>) returns (out: seq<FieldDiff>)
    ensures out == DiffOf(left, right, Sort(Self, names))
  {
    var sorted := Sort(Self, names);
    out := [];
    for i := 0 to |sorted|
      invariant out == DiffOf(left, right, sorted[..i])
    {
      assert sorted[..i + 1][..i] == sorted[..i];
      if Differs(left, right, sorted[i]) {
        out := out + [DiffAt(left, right, sorted[i])];
      }
    }
    assert sorted[..|sorted|] == sorted;
  }

  lemma {:induction false} DiffMembers(left: State, right: State, sorted: seq<string>, d: FieldDiff)
    ensures d in DiffOf(left, right, sorted)
       <==> d.field in sorted && Differs(left, right, d.field) && d == DiffAt(left, right, d.field)
  {
    if |sorted| > 0 {
      var init, last := sorted[..|sorted| - 1], sorted[|sorted| - 1];
      DiffMembers(left, right, init, d);
      assert sorted == init + [last];
    }
  }

  function Pick(fields: Fields, names: seq<string>): Fields
  {
    map n | n in fields && n in names :: fields[n]
  }

  method PickInto(fields: Fields, names: seq<string>) returns (out: Fields)
    ensures out == Pick(fields, names)
  {
    out := map[];
    for i := 0 to |names|
      invariant out == Pick(fields, names[..i])
    {
      assert names[..i + 1] == names[..i] + [names[i]];
      if names[i] in fields {
        out := out[names[i] := fields[names[i]]];
      }
    }
    assert names[..|names|] == names;
  }

  function Classify(left: State, right: State): Situation
  {
    if left.Changed() && right.Changed() then BothChanged
    else if left.Changed() then LeftChanged
    else if right.Changed() then RightChanged
    else Unchanged
  }

  // ---- settling a conflict field by field -----------------------------------------------

  /** Whose value a field keeps, or that nobody can say. */
  datatype Choice = KeepLeft | KeepRight | Leave | Blocked

  function ClockChoice(r: Resolver, left: State, right: State): Choice
  {
    var gap := left.updatedAt - right.updatedAt;
    var size := if gap < 0 then -gap else gap;
    if size <= r.skew then Blocked
    else if left.updatedAt > right.updatedAt then KeepLeft
    else KeepRight
  }

  function MergeChoice(left: State, right: State, d: FieldDiff): Choice
  {
    if !left.HasBase() || !right.HasBase() || (d.leftChanged && d.rightChanged) then Blocked
    else if d.leftChanged then KeepLeft
    else if d.rightChanged then KeepRight
    else Leave
  }

  function ChoiceFor(r: Resolver, left: State, right: State, d: FieldDiff): Choice
  {
    match r.PolicyFor(d.field)
    case LeftWins => KeepLeft
    case RightWins => KeepRight
    case NewestWins => ClockChoice(r, left, right)
    case FieldLevel => MergeChoice(left, right, d)
    case Review => Blocked
  }

  function ByPolicy(r: Resolver, left: State, right: State): FieldDiff -> Choice
  {
    d => ChoiceFor(r, left, right, d)
  }

  function ByMerge(left: State, right: State): FieldDiff -> Choice
  {
    d => MergeChoice(left, right, d)
  }

  /** What the left side still needs, and what the right side still needs. */
  function ForLeft(choose: FieldDiff -> Choice, diffs: seq<FieldDiff>): Fields
  {
    if |diffs| == 0 then map[]
    else
      var d := diffs[|diffs| - 1];
      var rest := ForLeft(choose, diffs[..|diffs| - 1]);
      if choose(d) == KeepRight then rest[d.field := d.right] else rest
  }

  function ForRight(choose: FieldDiff -> Choice, diffs: seq<FieldDiff>): Fields
  {
    if |diffs| == 0 then map[]
    else
      var d := diffs[|diffs| - 1];
      var rest := ForRight(choose, diffs[..|diffs| - 1]);
      if choose(d) == KeepLeft then rest[d.field := d.left] else rest
  }

  function BlockedFields(choose: FieldDiff -> Choice, diffs: seq<FieldDiff>): seq<string>
  {
    if |diffs| == 0 then []
    else
      var d := diffs[|diffs| - 1];
      BlockedFields(choose, diffs[..|diffs| - 1]) + if choose(d) == Blocked then [d.field] else []
  }

  predicate AnyBlocked(choose: FieldDiff -> Choice, diffs: seq<FieldDiff>)
  {
    |BlockedFields(choose, diffs)| > 0
  }

  /** The loop shared by the per-field and the field-level path. */
  method Settle(choose: FieldDiff -> Choice, diffs: seq<FieldDiff>)
    returns (leftValues: Fields, rightValues: Fields, blocked: seq<string>)
    ensures leftValues == ForLeft(choose, diffs) && rightValues == ForRight(choose, diffs)
    ensures blocked == BlockedFields(choose, diffs)
  {
    leftValues, rightValues, blocked := map[], map[], [];
    for i := 0 to |diffs|
      invariant leftValues == ForLeft(choose, diffs[..i]) && rightValues == ForRight(choose, diffs[..i])
      invariant blocked == BlockedFields(choose, diffs[..i])
    {
      assert diffs[..i + 1][..i] == diffs[..i];
      var d := diffs[i];
      match choose(d) {
        case KeepLeft => rightValues := rightValues[d.field := d.left];
        case KeepRight => leftValues := leftValues[d.field := d.right];
        case Blocked => blocked := blocked + [d.field];
        case Leave =>
      }
    }
    assert diffs[..|diffs|] == diffs;
  }

  function Settled(res: Resolution, choose: FieldDiff -> Choice): Resolution
  {
    var l, r := ForLeft(choose, res.diffs), ForRight(choose, res.diffs);
    if AnyBlocked(choose, res.diffs) then res.(action := Escalate)
    else if |l| > 0 && |r| > 0 then res.(action := WriteBoth, leftValues := l, rightValues := r)
    else if |r| > 0 then res.(action := WriteRight, values := r)
    else if |l| > 0 then res.(action := WriteLeft, values := l)
    else res.(action := Nothing)
  }

  // ---- the resolver ------------------------------------------------------------------------

  function Newest(r: Resolver, left: State, right: State, names: seq<string>, res: Resolution): Resolution
  {
    match ClockChoice(r, left, right)
    case KeepLeft => res.(action := WriteRight, values := Pick(left.fields, names))
    case KeepRight => res.(action := WriteLeft, values := Pick(right.fields, names))
    case _ => res.(action := Escalate)
  }

  function ResolveConflict(r: Resolver, left: State, right: State, names: seq<string>, res: Resolution): Resolution
  {
    if |r.perField| > 0 then Settled(res, ByPolicy(r, left, right))
    else match r.defaultPolicy
      case FieldLevel =>
        var res := res.(policy := FieldLevel);
        if !left.HasBase() || !right.HasBase() then res.(action := Escalate)
        else Settled(res, ByMerge(left, right))
      case LeftWins => res.(action := WriteRight, values := Pick(left.fields, names))
      case RightWins => res.(action := WriteLeft, values := Pick(right.fields, names))
      case NewestWins => Newest(r, left, right, names, res)
      case Review => res.(action := Escalate)
  }

  /** Nothing decided yet: the situation, the default policy and the disagreements. */
  function Undecided(r: Resolver, left: State, right: State, names: seq<string>): Resolution
  {
    var diffs := DiffOf(left, right, Sort(Self, names));
    Resolution(Classify(left, right), Nothing, r.defaultPolicy, map[], map[], map[], diffs)
  }

  function Decide(r: Resolver, left: State, right: State, names: seq<string>, res: Resolution): Resolution
  {
    if |res.diffs| == 0 then res
    else match res.situation
      case Unchanged => res
      case LeftChanged => res.(action := WriteRight, values := Pick(left.fields, names))
      case RightChanged => res.(action := WriteLeft, values := Pick(right.fields, names))
      case BothChanged => ResolveConflict(r, left, right, names, res)
  }

  function Resolve(r: Resolver, left: State, right: State, names: seq<string>): Resolution
  {
    Decide(r, left, right, names, Undecided(r, left, right, names))
  }

  /** What a resolution sends to each side. */
  function ToLeft(res: Resolution): Fields
  {
    match res.action
    case WriteLeft => res.values
    case WriteBoth => res.leftValues
    case _ => map[]
  }

  function ToRight(res: Resolution): Fields
  {
    match res.action
    case WriteRight => res.values
    case WriteBoth => res.rightValues
    case _ => map[]
  }

  // ---- what settling collects ------------------------------------------------------------------

  lemma {:induction false} ForLeftMembers(choose: FieldDiff -> Choice, diffs: seq<FieldDiff>, f: string)
    ensures f in ForLeft(choose, diffs) <==> exists d :: d in diffs && d.field == f && choose(d) == KeepRight
    ensures f in ForLeft(choose, diffs) ==>
      exists d :: d in diffs && d.field == f && choose(d) == KeepRight && ForLeft(choose, diffs)[f] == d.right
  {
    if |diffs| > 0 {
      var init, last := diffs[..|diffs| - 1], diffs[|diffs| - 1];
      ForLeftMembers(choose, init, f);
      assert diffs == init + [last];
      assert forall d :: d in diffs <==> d in init || d == last;
    }
  }

  lemma {:induction false} ForRightMembers(choose: FieldDiff -> Choice, diffs: seq<FieldDiff>, f: string)
    ensures f in ForRight(choose, diffs) <==> exists d :: d in diffs && d.field == f && choose(d) == KeepLeft
    ensures f in ForRight(choose, diffs) ==>
      exists d :: d in diffs && d.field == f && choose(d) == KeepLeft && ForRight(choose, diffs)[f] == d.left
  {
    if |diffs| > 0 {
      var init, last := diffs[..|diffs| - 1], diffs[|diffs| - 1];
      ForRightMembers(choose, init, f);
      assert diffs == init + [last];
      assert forall d :: d in diffs <==> d in init || d == last;
    }
  }

  lemma {:induction false} BlockedMembers(choose: FieldDiff -> Choice, diffs: seq<FieldDiff>)
    ensures AnyBlocked(choose, diffs) <==> exists d :: d in diffs && choose(d) == Blocked
  {
    if |diffs| > 0 {
      var init, last := diffs[..|diffs| - 1], diffs[|diffs| - 1];
      BlockedMembers(choose, init);
      assert diffs == init + [last];
      assert forall d :: d in diffs <==> d in init || d == last;
    }
  }

  /** The settled writes are the two collections, whichever action carries them. */
  lemma SettledWrites(res: Resolution, choose: FieldDiff -> Choice)
    requires Empty(res)
    ensures
      var out := Settled(res, choose);
      if AnyBlocked(choose, res.diffs) then out.action == Escalate && ToLeft(out) == ToRight(out) == map[]
      else
        && out.action != Escalate
        && ToLeft(out) == ForLeft(choose, res.diffs) && ToRight(out) == ForRight(choose, res.diffs)
  {}

  // ---- digests tell which fields moved -----------------------------------------------------------

  /** The digests a state carries are digests of the values it carries. */
  ghost predicate Honest(s: State, names: seq<string>)
  {
    && s.hash == SnapshotHash(s.fields, names)
    && (s.synced == SnapshotHash(s.base, names) || (s.synced == NoHash && s.base == map[]))
  }

  lemma UnchangedMeansNoFieldMoved(s: State, names: seq<string>)
    requires Honest(s, names)
    ensures s.Changed() <==> s.synced == NoHash || exists f :: f in names && s.FieldChanged(f)
  {
    SnapshotHashDecidesFields(s.fields, s.base, names);
    forall f | f in names
      ensures s.FieldChanged(f) <==> !SameField(s.fields, s.base, f)
    {
      FieldChangedIff(s, f);
    }
  }

  lemma SortKeepsMembers(names: seq<string>, f: string)
    ensures f in Sort(Self, names) <==> f in names
  {
    assert f in multiset(Sort(Self, names)) <==> f in multiset(names);
  }

  lemma DiffFor(left: State, right: State, names: seq<string>, f: string)
    ensures forall d :: d in DiffOf(left, right, Sort(Self, names)) && d.field == f ==> d == DiffAt(left, right, f)
    ensures DiffAt(left, right, f) in DiffOf(left, right, Sort(Self, names))
       <==> f in names && !SameField(left.fields, right.fields, f)
  {
    SortKeepsMembers(names, f);
    DiffersIff(left, right, f);
    forall d: FieldDiff
      ensures d in DiffOf(left, right, Sort(Self, names)) && d.field == f ==> d == DiffAt(left, right, f)
    {
      DiffMembers(left, right, Sort(Self, names), d);
    }
    DiffMembers(left, right, Sort(Self, names), DiffAt(left, right, f));
  }

  lemma NoDiffsIff(left: State, right: State, names: seq<string>)
    ensures |DiffOf(left, right, Sort(Self, names))| == 0 <==> AgreeOn(left.fields, right.fields, names)
  {
    var diffs := DiffOf(left, right, Sort(Self, names));
    if |diffs| > 0 {
      var d := diffs[0];
      DiffMembers(left, right, Sort(Self, names), d);
      DiffFor(left, right, names, d.field);
    }
    if !AgreeOn(left.fields, right.fields, names) {
      var f :| f in names && !SameField(left.fields, right.fields, f);
      DiffFor(left, right, names, f);
    }
  }

  // ---- no silently lost edit ------------------------------------------------------------------------

  /** The conditions under which an edit may be lost: both sides moved, and the field's policy
      names the other side outright or by a clock gap beyond the tolerance. */
  predicate MayOverwriteRight(r: Resolver, left: State, right: State, f: string)
  {
    && Classify(left, right) == BothChanged
    && (r.PolicyFor(f) == LeftWins
        || (r.PolicyFor(f) == NewestWins && left.updatedAt - right.updatedAt > r.skew))
  }

  predicate MayOverwriteLeft(r: Resolver, left: State, right: State, f: string)
  {
    && Classify(left, right) == BothChanged
    && (r.PolicyFor(f) == RightWins
        || (r.PolicyFor(f) == NewestWins && right.updatedAt - left.updatedAt > r.skew))
  }

  lemma ChoiceKeepsEdits(r: Resolver, left: State, right: State, d: FieldDiff)
    requires r.skew >= 0
    ensures ChoiceFor(r, left, right, d) == KeepLeft && d.rightChanged ==>
      || r.PolicyFor(d.field) == LeftWins
      || (r.PolicyFor(d.field) == NewestWins && left.updatedAt - right.updatedAt > r.skew)
    ensures ChoiceFor(r, left, right, d) == KeepRight && d.leftChanged ==>
      || r.PolicyFor(d.field) == RightWins
      || (r.PolicyFor(d.field) == NewestWins && right.updatedAt - left.updatedAt > r.skew)
    ensures MergeChoice(left, right, d) == KeepLeft ==> !d.rightChanged
    ensures MergeChoice(left, right, d) == KeepRight ==> !d.leftChanged
  {}

  /** A resolution as it stands before anything is decided. */
  predicate Blank(res: Resolution) { res.action == Nothing && Empty(res) }

  predicate Empty(res: Resolution) { res.values == res.leftValues == res.rightValues == map[] }

  /** A field has at most one entry in the list of disagreements. */
  ghost predicate OneDiff(left: State, right: State, diffs: seq<FieldDiff>, f: string)
  {
    forall d :: d in diffs && d.field == f ==> d == DiffAt(left, right, f)
  }

  /** A settled write to a field is the choice its one diff made. */
  lemma SettledChoice(left: State, right: State, choose: FieldDiff -> Choice, diffs: seq<FieldDiff>, f: string)
    requires OneDiff(left, right, diffs, f)
    ensures f in ForRight(choose, diffs) ==> choose(DiffAt(left, right, f)) == KeepLeft
    ensures f in ForLeft(choose, diffs) ==> choose(DiffAt(left, right, f)) == KeepRight
  {
    ForRightMembers(choose, diffs, f);
    ForLeftMembers(choose, diffs, f);
  }

  lemma PerFieldKeepsEdits(r: Resolver, left: State, right: State, res: Resolution, f: string)
    requires r.skew >= 0 && Classify(left, right) == BothChanged && Blank(res) && OneDiff(left, right, res.diffs, f)
    ensures
      var out := Settled(res, ByPolicy(r, left, right));
      && (right.FieldChanged(f) && f in ToRight(out) ==> MayOverwriteRight(r, left, right, f))
      && (left.FieldChanged(f) && f in ToLeft(out) ==> MayOverwriteLeft(r, left, right, f))
  {
    ChoiceKeepsEdits(r, left, right, DiffAt(left, right, f));
    SettledChoice(left, right, ByPolicy(r, left, right), res.diffs, f);
    SettledWrites(res, ByPolicy(r, left, right));
  }

  lemma MergeKeepsEdits(r: Resolver, left: State, right: State, res: Resolution, f: string)
    requires r.skew >= 0 && Blank(res) && OneDiff(left, right, res.diffs, f)
    ensures
      var out := Settled(res, ByMerge(left, right));
      && (f in ToRight(out) ==> !right.FieldChanged(f))
      && (f in ToLeft(out) ==> !left.FieldChanged(f))
  {
    ChoiceKeepsEdits(r, left, right, DiffAt(left, right, f));
    SettledChoice(left, right, ByMerge(left, right), res.diffs, f);
    SettledWrites(res, ByMerge(left, right));
  }

  lemma ConflictKeepsEdits(r: Resolver, left: State, right: State, names: seq<string>, res: Resolution, f: string)
    requires r.skew >= 0 && Classify(left, right) == BothChanged && Blank(res) && OneDiff(left, right, res.diffs, f)
    ensures
      var out := ResolveConflict(r, left, right, names, res);
      && (right.FieldChanged(f) && f in ToRight(out) ==> MayOverwriteRight(r, left, right, f))
      && (left.FieldChanged(f) && f in ToLeft(out) ==> MayOverwriteLeft(r, left, right, f))
  {
    if |r.perField| > 0 {
      PerFieldKeepsEdits(r, left, right, res, f);
    } else {
      assert r.PolicyFor(f) == r.defaultPolicy by { assert r.perField == map[]; }
      if r.defaultPolicy == FieldLevel {
        MergeKeepsEdits(r, left, right, res.(policy := FieldLevel), f);
      } else {
        WholeRecordKeepsEdits(r, left, right, names, res, f);
      }
    }
  }

  lemma WholeRecordKeepsEdits(r: Resolver, left: State, right: State, names: seq<string>, res: Resolution, f: string)
    requires r.skew >= 0 && Classify(left, right) == BothChanged && Blank(res)
    requires |r.perField| == 0 && r.defaultPolicy != FieldLevel && r.PolicyFor(f) == r.defaultPolicy
    ensures
      var out := ResolveConflict(r, left, right, names, res);
      && (f in ToRight(out) ==> MayOverwriteRight(r, left, right, f))
      && (f in ToLeft(out) ==> MayOverwriteLeft(r, left, right, f))
  {}

  lemma DecideKeepsEdits(r: Resolver, left: State, right: State, names: seq<string>, res: Resolution, f: string)
    requires r.skew >= 0 && Blank(res) && OneDiff(left, right, res.diffs, f) && res.situation == Classify(left, right)
    requires !left.Changed() ==> !left.FieldChanged(f)
    requires !right.Changed() ==> !right.FieldChanged(f)
    ensures
      var out := Decide(r, left, right, names, res);
      && (right.FieldChanged(f) && f in ToRight(out) ==> MayOverwriteRight(r, left, right, f))
      && (left.FieldChanged(f) && f in ToLeft(out) ==> MayOverwriteLeft(r, left, right, f))
  {
    if res.situation == BothChanged { ConflictKeepsEdits(r, left, right, names, res, f); }
  }

  /** No silently lost edit: for every input and policy table, a field a side edited since its
      base is overwritten only under `MayOverwriteLeft` or `MayOverwriteRight`. */
  lemma NoSilentlyLostEdit(r: Resolver, left: State, right: State, names: seq<string>, f: string)
    requires r.skew >= 0 && Honest(left, names) && Honest(right, names) && f in names
    ensures
      var res := Resolve(r, left, right, names);
      && (right.FieldChanged(f) && f in ToRight(res) ==> MayOverwriteRight(r, left, right, f))
      && (left.FieldChanged(f) && f in ToLeft(res) ==> MayOverwriteLeft(r, left, right, f))
  {
    UnchangedMeansNoFieldMoved(left, names);
    UnchangedMeansNoFieldMoved(right, names);
    DiffFor(left, right, names, f);
    DecideKeepsEdits(r, left, right, names, Undecided(r, left, right, names), f);
  }

  lemma DecideEscalatesEmpty(r: Resolver, left: State, right: State, names: seq<string>, res: Resolution)
    requires Blank(res)
    ensures Decide(r, left, right, names, res).action == Escalate ==> Empty(Decide(r, left, right, names, res))
  {}

  /** An escalation carries nothing anybody could write. */
  lemma EscalationWritesNothing(r: Resolver, left: State, right: State, names: seq<string>)
    ensures Resolve(r, left, right, names).action == Escalate ==> Empty(Resolve(r, left, right, names))
  {
    DecideEscalatesEmpty(r, left, right, names, Undecided(r, left, right, names));
  }

  // ---- field level is the three-way merge ------------------------------------------------------------

  function ThreeWay(base: Value, left: Value, right: Value): Value { if left == base then right else left }

  ghost predicate AllPresent(fields: Fields, names: seq<string>) { forall f :: f in names ==> f in fields }

  ghost predicate MergeInput(r: Resolver, left: State, right: State, names: seq<string>)
  {
    && Honest(left, names) && Honest(right, names) && left.HasBase() && right.HasBase()
    && AllPresent(left.fields, names) && AllPresent(right.fields, names) && AllPresent(left.base, names)
    && AgreeOn(left.base, right.base, names)
    && forall f :: f in names ==> r.PolicyFor(f) == FieldLevel
  }

  /** Edited on both sides, to different values. */
  predicate Contested(left: State, right: State, f: string)
    requires f in left.fields && f in right.fields && f in left.base
  {
    left.fields[f] != left.base[f] && right.fields[f] != left.base[f] && left.fields[f] != right.fields[f]
  }

  /** What one field's diff says when every value is present and the bases agree. */
  lemma MergeField(r: Resolver, left: State, right: State, names: seq<string>, f: string)
    requires MergeInput(r, left, right, names) && f in names
    ensures f in left.fields && f in right.fields && f in left.base && f in right.base
    ensures left.base[f] == right.base[f]
    ensures left.FieldChanged(f) <==> left.fields[f] != left.base[f]
    ensures right.FieldChanged(f) <==> right.fields[f] != left.base[f]
    ensures DiffAt(left, right, f) in DiffOf(left, right, Sort(Self, names)) <==> left.fields[f] != right.fields[f]
    ensures ChoiceFor(r, left, right, DiffAt(left, right, f)) == MergeChoice(left, right, DiffAt(left, right, f))
  {
    assert SameField(left.base, right.base, f);
    FieldChangedIff(left, f);
    FieldChangedIff(right, f);
    DiffFor(left, right, names, f);
  }

  lemma BlockedIffContested(r: Resolver, left: State, right: State, names: seq<string>, choose: FieldDiff -> Choice)
    requires MergeInput(r, left, right, names)
    requires forall d :: d in DiffOf(left, right, Sort(Self, names)) ==> choose(d) == MergeChoice(left, right, d)
    ensures AnyBlocked(choose, DiffOf(left, right, Sort(Self, names)))
       <==> exists f :: f in names && Contested(left, right, f)
  {
    var diffs := DiffOf(left, right, Sort(Self, names));
    BlockedMembers(choose, diffs);
    if AnyBlocked(choose, diffs) {
      var d :| d in diffs && choose(d) == Blocked;
      DiffMembers(left, right, Sort(Self, names), d);
      SortKeepsMembers(names, d.field);
      MergeField(r, left, right, names, d.field);
      assert Contested(left, right, d.field);
    }
    if f :| f in names && Contested(left, right, f) {
      MergeField(r, left, right, names, f);
      assert choose(DiffAt(left, right, f)) == Blocked;
    }
  }

  lemma SettledField(r: Resolver, left: State, right: State, names: seq<string>, choose: FieldDiff -> Choice, f: string)
    requires MergeInput(r, left, right, names) && f in names && !Contested(left, right, f)
    requires forall d :: d in DiffOf(left, right, Sort(Self, names)) ==> choose(d) == MergeChoice(left, right, d)
    ensures
      var diffs := DiffOf(left, right, Sort(Self, names));
      var merged := ThreeWay(left.base[f], left.fields[f], right.fields[f]);
      && Merge(left.fields, ForLeft(choose, diffs))[f] == merged
      && Merge(right.fields, ForRight(choose, diffs))[f] == merged
      && !(f in ForLeft(choose, diffs) && f in ForRight(choose, diffs))
  {
    var diffs := DiffOf(left, right, Sort(Self, names));
    MergeField(r, left, right, names, f);
    DiffFor(left, right, names, f);
    ForLeftMembers(choose, diffs, f);
    ForRightMembers(choose, diffs, f);
  }

  lemma WritesAreMapped(left: State, right: State, names: seq<string>, choose: FieldDiff -> Choice, f: string)
    ensures
      var diffs := DiffOf(left, right, Sort(Self, names));
      f in ForLeft(choose, diffs) || f in ForRight(choose, diffs) ==> f in names
  {
    var diffs := DiffOf(left, right, Sort(Self, names));
    ForLeftMembers(choose, diffs, f);
    ForRightMembers(choose, diffs, f);
    DiffFor(left, right, names, f);
  }

  ghost predicate IsThreeWayMerge(left: State, right: State, names: seq<string>, res: Resolution)
    requires AllPresent(left.fields, names) && AllPresent(right.fields, names) && AllPresent(left.base, names)
  {
    if exists f :: f in names && Contested(left, right, f) then res.action == Escalate
    else
      && res.action != Escalate
      && ToLeft(res).Keys !! ToRight(res).Keys
      && forall f :: f in names ==>
           && Merge(left.fields, ToLeft(res))[f] == ThreeWay(left.base[f], left.fields[f], right.fields[f])
           && Merge(right.fields, ToRight(res))[f] == ThreeWay(left.base[f], left.fields[f], right.fields[f])
  }

  lemma SettledMerges(
    r: Resolver, left: State, right: State, names: seq<string>, res: Resolution, choose: FieldDiff -> Choice)
    requires MergeInput(r, left, right, names)
    requires res.diffs == DiffOf(left, right, Sort(Self, names)) && Empty(res)
    requires forall d :: d in res.diffs ==> choose(d) == MergeChoice(left, right, d)
    ensures IsThreeWayMerge(left, right, names, Settled(res, choose))
  {
    SettledWrites(res, choose);
    BlockedIffContested(r, left, right, names, choose);
    if !(exists f :: f in names && Contested(left, right, f)) {
      forall f | f in names
        ensures Merge(left.fields, ForLeft(choose, res.diffs))[f]
          == ThreeWay(left.base[f], left.fields[f], right.fields[f])
        ensures Merge(right.fields, ForRight(choose, res.diffs))[f]
          == ThreeWay(left.base[f], left.fields[f], right.fields[f])
        ensures !(f in ForLeft(choose, res.diffs) && f in ForRight(choose, res.diffs))
      {
        SettledField(r, left, right, names, choose, f);
      }
      forall f | f in ForLeft(choose, res.diffs)
        ensures f !in ForRight(choose, res.diffs)
      {
        WritesAreMapped(left, right, names, choose, f);
      }
    }
  }

  /** Field-level resolution, as the default or as the policy of every field, is the three-way
      merge: it escalates exactly on a field both sides edited differently, and otherwise its two
      disjoint writes leave both sides holding the pointwise merge. */
  lemma FieldLevelIsThreeWayMerge(r: Resolver, left: State, right: State, names: seq<string>)
    requires MergeInput(r, left, right, names) && |names| > 0
    ensures IsThreeWayMerge(left, right, names, Resolve(r, left, right, names))
  {
    var res := Undecided(r, left, right, names);
    if |res.diffs| > 0 && Classify(left, right) == BothChanged {
      DefaultIsFieldLevel(r, left, right, names);
      if |r.perField| > 0 {
        SettledMerges(r, left, right, names, res, ByPolicy(r, left, right));
      } else {
        SettledMerges(r, left, right, names, res.(policy := FieldLevel), ByMerge(left, right));
      }
      ConflictSettles(r, left, right, names, res);
    } else {
      OneSidedMerge(r, left, right, names);
    }
  }

  lemma ConflictSettles(r: Resolver, left: State, right: State, names: seq<string>, res: Resolution)
    requires |res.diffs| > 0 && res.situation == BothChanged && left.HasBase() && right.HasBase()
    requires |r.perField| == 0 ==> r.defaultPolicy == FieldLevel
    ensures Decide(r, left, right, names, res) ==
      if |r.perField| > 0 then Settled(res, ByPolicy(r, left, right))
      else Settled(res.(policy := FieldLevel), ByMerge(left, right))
  {}

  lemma DefaultIsFieldLevel(r: Resolver, left: State, right: State, names: seq<string>)
    requires MergeInput(r, left, right, names) && |names| > 0
    ensures |r.perField| == 0 ==> r.defaultPolicy == FieldLevel
    ensures forall d :: d in DiffOf(left, right, Sort(Self, names)) ==>
      ChoiceFor(r, left, right, d) == MergeChoice(left, right, d)
  {
    if |r.perField| == 0 {
      assert names[0] in names && r.perField == map[];
      assert r.PolicyFor(names[0]) == r.defaultPolicy;
    }
    forall d | d in DiffOf(left, right, Sort(Self, names))
      ensures ChoiceFor(r, left, right, d) == MergeChoice(left, right, d)
    {
      DiffMembers(left, right, Sort(Self, names), d);
      SortKeepsMembers(names, d.field);
    }
  }

  lemma OneSidedMerge(r: Resolver, left: State, right: State, names: seq<string>)
    requires MergeInput(r, left, right, names)
    requires |DiffOf(left, right, Sort(Self, names))| == 0 || Classify(left, right) != BothChanged
    ensures IsThreeWayMerge(left, right, names, Resolve(r, left, right, names))
  {
    NoDiffsIff(left, right, names);
    UnchangedMeansNoFieldMoved(left, names);
    UnchangedMeansNoFieldMoved(right, names);
    forall f | f in names
      ensures !left.Changed() ==> left.fields[f] == left.base[f]
      ensures !right.Changed() ==> right.fields[f] == left.base[f]
      ensures AgreeOn(left.fields, right.fields, names) ==> left.fields[f] == right.fields[f]
    {
      MergeField(r, left, right, names, f);
      assert AgreeOn(left.fields, right.fields, names) ==> SameField(left.fields, right.fields, f);
    }
    if !left.Changed() && !right.Changed() {
      assert AgreeOn(left.fields, right.fields, names);
    }
    OneSidedWrites(r, left, right, names, Undecided(r, left, right, names));
  }

  lemma OneSidedWrites(r: Resolver, left: State, right: State, names: seq<string>, res: Resolution)
    requires AllPresent(left.fields, names) && AllPresent(right.fields, names) && AllPresent(left.base, names)
    requires !left.Changed() ==> forall f :: f in names ==> left.fields[f] == left.base[f]
    requires !right.Changed() ==> forall f :: f in names ==> right.fields[f] == left.base[f]
    requires |res.diffs| == 0 || (!left.Changed() && !right.Changed()) ==>
      forall f :: f in names ==> left.fields[f] == right.fields[f]
    requires res.situation == Classify(left, right) && Blank(res)
    requires |res.diffs| == 0 || res.situation != BothChanged
    ensures IsThreeWayMerge(left, right, names, Decide(r, left, right, names, res))
  {}

  // ---- what a resolution comes to, field by field ------------------------------------------------------

  /** One side's value differs from the one it had when the pair last agreed. */
  predicate Edited(s: State, f: string) { !SameField(s.fields, s.base, f) }

  /** The policy that governs a field, as the configuration states it. */
  predicate Governs(r: Resolver, p: Policy, f: string)
  {
    if f in r.perField then r.perField[f] == p else r.defaultPolicy == p
  }

  /** Nobody but a person can say which value of the field to keep. */
  predicate Undecidable(r: Resolver, left: State, right: State, f: string)
  {
    || Governs(r, Review, f)
    || (Governs(r, NewestWins, f) && -r.skew <= left.updatedAt - right.updatedAt <= r.skew)
    || (Governs(r, FieldLevel, f)
        && (left.synced == NoHash || right.synced == NoHash || (Edited(left, f) && Edited(right, f))))
  }

  /** The side whose value is kept: the only one that moved, or the one the policy names. */
  predicate KeepsLeft(r: Resolver, left: State, right: State, f: string)
  {
    && left.hash != left.synced
    && (right.hash != right.synced ==>
          || Governs(r, LeftWins, f)
          || (Governs(r, NewestWins, f) && left.updatedAt > right.updatedAt + r.skew)
          || (Governs(r, FieldLevel, f) && Edited(left, f) && !Edited(right, f)))
  }

  predicate KeepsRight(r: Resolver, left: State, right: State, f: string)
  {
    && right.hash != right.synced
    && (left.hash != left.synced ==>
          || Governs(r, RightWins, f)
          || (Governs(r, NewestWins, f) && right.updatedAt > left.updatedAt + r.skew)
          || (Governs(r, FieldLevel, f) && Edited(right, f) && !Edited(left, f)))
  }

  /** Where fields are settled one by one, a field the winner lacks is sent as null; otherwise it is left alone. */
  predicate Nullifies(r: Resolver, left: State, right: State)
  {
    left.hash != left.synced && right.hash != right.synced && (r.perField != map[] || r.defaultPolicy == FieldLevel)
  }

  /** `lost` is what becomes of a side's field when `kept`, the other side's fields, win it. */
  predicate Copied(kept: Fields, before: Fields, lost: Fields, f: string, nullifies: bool)
  {
    if f in kept then f in lost && lost[f] == kept[f]
    else if nullifies then f in lost && lost[f] == Null
    else SameField(lost, before, f)
  }

  /** What both sides hold in a field afterwards. */
  predicate FieldResolved(r: Resolver, left: State, right: State, names: seq<string>, f: string, l: Fields, r': Fields)
  {
    var open := f in names && !SameField(left.fields, right.fields, f);
    var nulls := Nullifies(r, left, right);
    && (if open && KeepsRight(r, left, right, f) then Copied(right.fields, left.fields, l, f, nulls)
        else SameField(l, left.fields, f))
    && (if open && KeepsLeft(r, left, right, f) then Copied(left.fields, right.fields, r', f, nulls)
        else SameField(r', right.fields, f))
  }

  /** What a choice says about the winner, both sides having moved. */
  predicate ChoiceSays(c: Choice, blocked: bool, left: bool, right: bool)
  {
    match c
    case Blocked => blocked
    case KeepLeft => !blocked && left && !right
    case KeepRight => !blocked && right && !left
    case Leave => !blocked && !left && !right
  }

  lemma ClockSays(r: Resolver, left: State, right: State)
    requires r.skew >= 0
    ensures ChoiceSays(ClockChoice(r, left, right), -r.skew <= left.updatedAt - right.updatedAt <= r.skew,
                       left.updatedAt > right.updatedAt + r.skew, right.updatedAt > left.updatedAt + r.skew)
  {}

  /** What the policy of a field says, given what was edited. */
  lemma PolicySays(r: Resolver, left: State, right: State, d: FieldDiff)
    requires left.Changed() && right.Changed() && r.skew >= 0
    requires (d.leftChanged <==> Edited(left, d.field)) && (d.rightChanged <==> Edited(right, d.field))
    ensures ChoiceSays(ChoiceFor(r, left, right, d), Undecidable(r, left, right, d.field),
                       KeepsLeft(r, left, right, d.field), KeepsRight(r, left, right, d.field))
  {
    ClockSays(r, left, right);
    assert Governs(r, r.PolicyFor(d.field), d.field);
  }

  lemma ChoiceMeans(r: Resolver, left: State, right: State, f: string)
    requires left.Changed() && right.Changed() && r.skew >= 0
    ensures ChoiceSays(ChoiceFor(r, left, right, DiffAt(left, right, f)), Undecidable(r, left, right, f),
                       KeepsLeft(r, left, right, f), KeepsRight(r, left, right, f))
  {
    FieldChangedIff(left, f);
    FieldChangedIff(right, f);
    PolicySays(r, left, right, DiffAt(left, right, f));
  }

  ghost predicate SomeUndecidable(r: Resolver, left: State, right: State, names: seq<string>)
  {
    exists f :: f in names && !SameField(left.fields, right.fields, f) && Undecidable(r, left, right, f)
  }

  /** Settling by any choice that agrees with the policies on the fields that differ. */
  lemma SettledMeans(
    r: Resolver, left: State, right: State, names: seq<string>, res: Resolution, choose: FieldDiff -> Choice)
    requires left.Changed() && right.Changed() && r.skew >= 0 && Empty(res)
    requires res.diffs == DiffOf(left, right, Sort(Self, names))
    requires forall d :: d in res.diffs ==> choose(d) == ChoiceFor(r, left, right, d)
    ensures Settled(res, choose).action == Escalate <==> SomeUndecidable(r, left, right, names)
    ensures Nullifies(r, left, right) && Settled(res, choose).action != Escalate ==>
      forall f ::
        FieldResolved(r, left, right, names, f, Merge(left.fields, ToLeft(Settled(res, choose))),
                      Merge(right.fields, ToRight(Settled(res, choose))))
  {
    SettledWrites(res, choose);
    BlockedIffUndecidable(r, left, right, names, choose);
    if Nullifies(r, left, right) && !AnyBlocked(choose, res.diffs) {
      forall f: string
        ensures FieldResolved(r, left, right, names, f, Merge(left.fields, ForLeft(choose, res.diffs)),
                              Merge(right.fields, ForRight(choose, res.diffs)))
      {
        SettledFieldMeans(r, left, right, names, choose, f);
      }
    }
  }

  lemma BlockedIffUndecidable(r: Resolver, left: State, right: State, names: seq<string>, choose: FieldDiff -> Choice)
    requires left.Changed() && right.Changed() && r.skew >= 0
    requires forall d :: d in DiffOf(left, right, Sort(Self, names)) ==> choose(d) == ChoiceFor(r, left, right, d)
    ensures AnyBlocked(choose, DiffOf(left, right, Sort(Self, names))) <==> SomeUndecidable(r, left, right, names)
  {
    var diffs := DiffOf(left, right, Sort(Self, names));
    BlockedMembers(choose, diffs);
    if AnyBlocked(choose, diffs) {
      var d :| d in diffs && choose(d) == Blocked;
      DiffFor(left, right, names, d.field);
      ChoiceMeans(r, left, right, d.field);
    }
    if f :| f in names && !SameField(left.fields, right.fields, f) && Undecidable(r, left, right, f) {
      DiffFor(left, right, names, f);
      ChoiceMeans(r, left, right, f);
      assert choose(DiffAt(left, right, f)) == Blocked;
    }
  }

  lemma SettledFieldMeans(
    r: Resolver, left: State, right: State, names: seq<string>, choose: FieldDiff -> Choice, f: string)
    requires left.Changed() && right.Changed() && r.skew >= 0 && Nullifies(r, left, right)
    requires forall d :: d in DiffOf(left, right, Sort(Self, names)) ==> choose(d) == ChoiceFor(r, left, right, d)
    requires !AnyBlocked(choose, DiffOf(left, right, Sort(Self, names)))
    ensures
      var diffs := DiffOf(left, right, Sort(Self, names));
      FieldResolved(r, left, right, names, f, Merge(left.fields, ForLeft(choose, diffs)),
                    Merge(right.fields, ForRight(choose, diffs)))
  {
    var diffs := DiffOf(left, right, Sort(Self, names));
    BlockedMembers(choose, diffs);
    DiffFor(left, right, names, f);
    ChoiceMeans(r, left, right, f);
    ForLeftMembers(choose, diffs, f);
    ForRightMembers(choose, diffs, f);
  }

  /** Laying one side's mapped values over the other copies what it holds and leaves the rest. */
  lemma PickCopies(kept: Fields, before: Fields, names: seq<string>, f: string)
    ensures
      var after := Merge(before, Pick(kept, names));
      if f in names && !SameField(kept, before, f) then Copied(kept, before, after, f, false)
      else SameField(after, before, f)
  {}

  /** Under one policy that looks at sides rather than fields, either nobody can tell about any field or one
      side is copied over the other. */
  lemma WholeRecordSends(r: Resolver, left: State, right: State, names: seq<string>, res: Resolution, f: string)
    requires left.Changed() && right.Changed() && r.skew >= 0 && Blank(res)
    requires r.perField == map[] && r.defaultPolicy != FieldLevel
    ensures
      var out := ResolveConflict(r, left, right, names, res);
      || (out.action == Escalate && Undecidable(r, left, right, f))
      || (out.action == WriteRight && !Undecidable(r, left, right, f)
          && KeepsLeft(r, left, right, f) && !KeepsRight(r, left, right, f)
          && ToLeft(out) == map[] && ToRight(out) == Pick(left.fields, names))
      || (out.action == WriteLeft && !Undecidable(r, left, right, f)
          && KeepsRight(r, left, right, f) && !KeepsLeft(r, left, right, f)
          && ToRight(out) == map[] && ToLeft(out) == Pick(right.fields, names))
  {}

  lemma WholeRecordMeans(r: Resolver, left: State, right: State, names: seq<string>, res: Resolution, f: string)
    requires left.Changed() && right.Changed() && r.skew >= 0 && Blank(res)
    requires r.perField == map[] && r.defaultPolicy != FieldLevel
    ensures
      var out := ResolveConflict(r, left, right, names, res);
      && (Undecidable(r, left, right, f) <==> out.action == Escalate)
      && (out.action != Escalate ==>
            FieldResolved(r, left, right, names, f, Merge(left.fields, ToLeft(out)), Merge(right.fields, ToRight(out))))
  {
    WholeRecordSends(r, left, right, names, res, f);
    PickCopies(left.fields, right.fields, names, f);
    PickCopies(right.fields, left.fields, names, f);
  }

  lemma ConflictMeans(r: Resolver, left: State, right: State, names: seq<string>, res: Resolution)
    requires left.Changed() && right.Changed() && r.skew >= 0 && Blank(res)
    requires |res.diffs| > 0 && res.diffs == DiffOf(left, right, Sort(Self, names))
    ensures
      var out := ResolveConflict(r, left, right, names, res);
      && (out.action == Escalate <==> SomeUndecidable(r, left, right, names))
      && (out.action != Escalate ==> forall f ::
            FieldResolved(r, left, right, names, f, Merge(left.fields, ToLeft(out)), Merge(right.fields, ToRight(out))))
  {
    NoDiffsIff(left, right, names);
    if r.perField != map[] {
      assert |r.perField| > 0;
      SettledMeans(r, left, right, names, res, ByPolicy(r, left, right));
    } else if r.defaultPolicy == FieldLevel {
      if left.HasBase() && right.HasBase() {
        SettledMeans(r, left, right, names, res.(policy := FieldLevel), ByMerge(left, right));
      } else {
        assert forall f :: Undecidable(r, left, right, f);
      }
    } else {
      forall f: string { WholeRecordMeans(r, left, right, names, res, f); }
    }
  }

  lemma OneSideMoved(r: Resolver, left: State, right: State, names: seq<string>, res: Resolution, f: string)
    requires Blank(res) && res.situation == Classify(left, right) && !(left.Changed() && right.Changed())
    requires |res.diffs| > 0 || AgreeOn(left.fields, right.fields, names)
    ensures
      var out := Decide(r, left, right, names, res);
      && out.action != Escalate
      && FieldResolved(r, left, right, names, f, Merge(left.fields, ToLeft(out)), Merge(right.fields, ToRight(out)))
  {
    PickCopies(left.fields, right.fields, names, f);
    PickCopies(right.fields, left.fields, names, f);
  }

  lemma NothingToDecide(r: Resolver, left: State, right: State, names: seq<string>, res: Resolution)
    requires |res.diffs| == 0
    ensures Decide(r, left, right, names, res) == res
  {}

  lemma ConflictIsDecided(r: Resolver, left: State, right: State, names: seq<string>, res: Resolution)
    requires |res.diffs| > 0 && res.situation == BothChanged
    ensures Decide(r, left, right, names, res) == ResolveConflict(r, left, right, names, res)
  {}

  /** Sides that agree on every mapped field are left alone, whoever moved. */
  lemma NothingIsSent(r: Resolver, left: State, right: State, names: seq<string>, res: Resolution, f: string)
    requires res.action == Nothing && AgreeOn(left.fields, right.fields, names)
    ensures FieldResolved(r, left, right, names, f, Merge(left.fields, ToLeft(res)), Merge(right.fields, ToRight(res)))
  {
    assert Merge(left.fields, map[]) == left.fields && Merge(right.fields, map[]) == right.fields;
  }

  /** A resolution, read field by field. A person is asked exactly when both sides moved and some mapped field
      they disagree about is undecidable. Otherwise each such field ends up, on both sides, with the value of
      the side that keeps it, and no other field changes. */
  lemma ResolutionMeans(r: Resolver, left: State, right: State, names: seq<string>)
    requires r.skew >= 0
    ensures
      var res := Resolve(r, left, right, names);
      && (res.action == Escalate <==>
            left.hash != left.synced && right.hash != right.synced && SomeUndecidable(r, left, right, names))
      && (res.action != Escalate ==> forall f ::
            FieldResolved(r, left, right, names, f, Merge(left.fields, ToLeft(res)), Merge(right.fields, ToRight(res))))
  {
    var res := Undecided(r, left, right, names);
    NoDiffsIff(left, right, names);
    if AgreeOn(left.fields, right.fields, names) {
      NothingToDecide(r, left, right, names, res);
      forall f: string { NothingIsSent(r, left, right, names, res, f); }
    } else if left.Changed() && right.Changed() {
      ConflictIsDecided(r, left, right, names, res);
      ConflictMeans(r, left, right, names, res);
    } else {
      forall f: string { OneSideMoved(r, left, right, names, res, f); }
      OneSideMoved(r, left, right, names, res, "");
    }
  }

  /** The side whose values a policy for the whole record keeps when both have moved. */
  predicate Prefers(r: Resolver, left: State, right: State, winner: Side)
  {
    && r.perField == map[]
    && (r.defaultPolicy == (if winner == Left then LeftWins else RightWins)
        || (r.defaultPolicy == NewestWins && winner == Left && left.updatedAt > right.updatedAt + r.skew)
        || (r.defaultPolicy == NewestWins && winner == Right && right.updatedAt > left.updatedAt + r.skew))
  }

  lemma PreferredIsDecidable(r: Resolver, left: State, right: State, names: seq<string>, winner: Side)
    requires Prefers(r, left, right, winner) && r.skew >= 0
    ensures !SomeUndecidable(r, left, right, names)
  {}

  lemma PreferredField(
    r: Resolver, left: State, right: State, names: seq<string>, winner: Side, f: string, l: Fields, r': Fields)
    requires Prefers(r, left, right, winner) && r.skew >= 0 && left.hash != left.synced && right.hash != right.synced
    requires FieldResolved(r, left, right, names, f, l, r')
    ensures winner == Left ==>
      SameField(l, left.fields, f) && (f in names && f in left.fields ==> f in r' && r'[f] == left.fields[f])
    ensures winner == Right ==>
      SameField(r', right.fields, f) && (f in names && f in right.fields ==> f in l && l[f] == right.fields[f])
  {}

  /** When only one side moved, its values are the ones kept. */
  lemma OnlyMoverField(r: Resolver, left: State, right: State, names: seq<string>, f: string, l: Fields, r': Fields)
    requires FieldResolved(r, left, right, names, f, l, r') && f in names
    requires (left.hash != left.synced) != (right.hash != right.synced)
    ensures left.hash != left.synced ==>
      SameField(l, left.fields, f) && (f in left.fields ==> f in r' && r'[f] == left.fields[f])
    ensures right.hash != right.synced ==>
      SameField(r', right.fields, f) && (f in right.fields ==> f in l && l[f] == right.fields[f])
  {}

  /** A policy for the whole record copies the winner: with both sides moved and some mapped field different,
      left_wins, right_wins, or newest_wins with one side newer by more than the tolerance, sends every mapped
      value of the side it prefers to the other, and nothing the other way. */
  lemma WinnerIsCopied(r: Resolver, left: State, right: State, names: seq<string>, winner: Side)
    requires r.skew >= 0 && Prefers(r, left, right, winner)
    requires left.hash != left.synced && right.hash != right.synced
    requires exists f :: f in names && !SameField(left.fields, right.fields, f)
    ensures
      var res := Resolve(r, left, right, names);
      && res.action == (if winner == Left then WriteRight else WriteLeft)
      && forall f :: f in res.values <==> f in names && f in (if winner == Left then left.fields else right.fields)
    ensures
      var res := Resolve(r, left, right, names);
      forall f :: f in res.values ==> res.values[f] == At(if winner == Left then left.fields else right.fields, f)
  {
    var res := Undecided(r, left, right, names);
    NoDiffsIff(left, right, names);
    ConflictIsDecided(r, left, right, names, res);
    WholeRecordSends(r, left, right, names, res, "");
  }

  // ---- a missing value under a per-field policy -----------------------------------------------------

  /** Whole-record policies leave out a field the winner lacks; per-field policies send it as
      null, after which the two sides still disagree about it. */
  lemma PerFieldPushesNull(r: Resolver, left: State, right: State, names: seq<string>, f: string)
    requires f in names && f !in left.fields && f in right.fields
    requires r.PolicyFor(f) == LeftWins && Classify(left, right) == BothChanged
    ensures
      var res := Resolve(r, left, right, names);
      && (|r.perField| == 0 ==> f !in ToRight(res))
      && (|r.perField| > 0 && res.action != Escalate ==>
            f in ToRight(res) && ToRight(res)[f] == Null
            && !SameField(Merge(left.fields, ToLeft(res)), Merge(right.fields, ToRight(res)), f))
  {
    var res := Undecided(r, left, right, names);
    if |r.perField| > 0 {
      LeftWinsField(r, left, right, names, f);
      SettledWrites(res, ByPolicy(r, left, right));
      PerFieldDecides(r, left, right, names, res);
    } else {
      assert r.defaultPolicy == LeftWins by { assert r.perField == map[]; }
      LeftWinsWhole(r, left, right, names, res);
    }
  }

  lemma PerFieldDecides(r: Resolver, left: State, right: State, names: seq<string>, res: Resolution)
    requires |r.perField| > 0 && res.situation == BothChanged && |res.diffs| > 0
    ensures Decide(r, left, right, names, res) == Settled(res, ByPolicy(r, left, right))
  {}

  lemma LeftWinsWhole(r: Resolver, left: State, right: State, names: seq<string>, res: Resolution)
    requires |r.perField| == 0 && r.defaultPolicy == LeftWins && res.situation == BothChanged && Blank(res)
    ensures forall f :: f in ToRight(Decide(r, left, right, names, res)) ==> f in left.fields
  {}

  /** A missing field that its policy decides for the left is sent to the right as null, and to the left not at all. */
  lemma LeftWinsField(r: Resolver, left: State, right: State, names: seq<string>, f: string)
    requires f in names && f !in left.fields && f in right.fields && r.PolicyFor(f) == LeftWins
    ensures
      var diffs := DiffOf(left, right, Sort(Self, names));
      && |diffs| > 0
      && f in ForRight(ByPolicy(r, left, right), diffs) && ForRight(ByPolicy(r, left, right), diffs)[f] == Null
      && f !in ForLeft(ByPolicy(r, left, right), diffs)
  {
    var diffs := DiffOf(left, right, Sort(Self, names));
    DiffFor(left, right, names, f);
    ForRightMembers(ByPolicy(r, left, right), diffs, f);
    ForLeftMembers(ByPolicy(r, left, right), diffs, f);
  }
}
