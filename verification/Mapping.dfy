/** Field maps: directions, dotted paths into nested records, and translation to and from canonical
    fields (internal/mapping/mapping.go). */
module Mapping {
  import opened Wrappers
  import opened Model

  // ---- directions -----------------------------------------------------------------------------------

  datatype Direction = LeftToRight | RightToLeft | Bidirectional

  predicate WritesTo(d: Direction, side: Side)
  {
    match side
    case Left => d == RightToLeft || d == Bidirectional
    case Right => d == LeftToRight || d == Bidirectional
  }

  /** A field's override narrows the sync's direction, or cannot be combined with it. */
  function Narrow(sync: Direction, field: Option<Direction>): (r: Option<Direction>)
    ensures r.Some? ==> forall side ::
      WritesTo(r.value, side) <==> WritesTo(sync, side) && (field.Some? ==> WritesTo(field.value, side))
    ensures r.None? <==> field.Some? && forall side :: !(WritesTo(sync, side) && WritesTo(field.value, side))
    ensures field.None? || field == Some(Bidirectional) || field == Some(sync) ==> r == Some(sync)
    ensures sync == Bidirectional && field.Some? ==> r == field
    ensures {Some(sync), field} == {Some(LeftToRight), Some(RightToLeft)} <==> r.None?
  {
    if field.None? then Some(sync)
    else
      var toLeft := WritesTo(sync, Left) && WritesTo(field.value, Left);
      var toRight := WritesTo(sync, Right) && WritesTo(field.value, Right);
      if toLeft && toRight then Some(Bidirectional)
      else if toLeft then Some(RightToLeft)
      else if toRight then Some(LeftToRight)
      else
        assert !(WritesTo(sync, Left) && WritesTo(field.value, Left));
        assert !(WritesTo(sync, Right) && WritesTo(field.value, Right));
        None
  }

  // ---- nested records and dotted paths ------------------------------------------------------------------

  datatype Node = Leaf(value: Value) | Obj(fields: map<string, Node>)

  type Tree = map<string, Node>

  function Split(path: string): seq<string>
  {
    var i := DotAt(path);
    if i == |path| then [path] else [path[..i]] + Split(path[i + 1..])
  }

  lemma {:induction false} SplitFacts(path: string)
    ensures |Split(path)| > 0
    ensures forall i :: 0 <= i < |Split(path)| ==> '.' !in Split(path)[i]
    ensures |Split(path)| == 1 ==> Split(path)[0] == path
    ensures |Split(path)| > 1 ==> '.' in path
  {
    var i := DotAt(path);
    if i == |path| {
      assert path[..i] == path;
    } else {
      SplitFacts(path[i + 1..]);
    }
  }

  function Join(parts: seq<string>): string
  {
    if |parts| == 0 then "" else if |parts| == 1 then parts[0] else parts[0] + "." + Join(parts[1..])
  }

  lemma JoinCons(head: string, rest: seq<string>)
    requires |rest| > 0
    ensures Join([head] + rest) == head + "." + Join(rest)
  {
    assert ([head] + rest)[1..] == rest;
  }

  lemma CutAtDot(path: string, i: nat)
    requires i < |path| && path[i] == '.'
    ensures path == path[..i] + "." + path[i + 1..]
  {}

  /** Splitting loses nothing and keeps the order. */
  lemma {:induction false} JoinInvertsSplit(path: string)
    ensures Join(Split(path)) == path
  {
    var i := DotAt(path);
    if i < |path| {
      var rest := path[i + 1..];
      JoinInvertsSplit(rest);
      SplitFacts(rest);
      JoinCons(path[..i], Split(rest));
      CutAtDot(path, i);
    }
  }

  /** A dotted path together with the names it is made of. */
  datatype Path = Path(text: string, parts: seq<string>)

  predicate PathOk(p: Path) { p.parts == Split(p.text) && |p.parts| > 0 }

  function MakePath(text: string): (p: Path)
    ensures PathOk(p) && p.text == text
  {
    SplitFacts(text);
    Path(text, Split(text))
  }

  function DotAt(s: string): (i: nat)
    ensures i <= |s|
    ensures '.' !in s[..i]
    ensures i < |s| ==> s[i] == '.'
  {
    if |s| == 0 || s[0] == '.' then 0
    else
      var i := 1 + DotAt(s[1..]);
      assert s[..i] == [s[0]] + s[1..][..i - 1];
      i
  }

  function Walk(n: Node, parts: seq<string>): Option<Node>
    decreases parts
  {
    if |parts| == 0 then Some(n)
    else if n.Leaf? || parts[0] !in n.fields then None
    else Walk(n.fields[parts[0]], parts[1..])
  }

  /** A name that literally contains the path wins over walking it. */
  function GetPath(fields: Tree, path: Path): Option<Node>
  {
    if path.text in fields then Some(fields[path.text])
    else if |path.parts| == 1 then None
    else Walk(Obj(fields), path.parts)
  }

  /** Creates the intermediate objects it needs, in place of anything that is not one. */
  function SetParts(fields: Tree, parts: seq<string>, v: Node): Tree
    requires |parts| > 0
    decreases parts
  {
    if |parts| == 1 then fields[parts[0] := v]
    else
      var next := if parts[0] in fields && fields[parts[0]].Obj? then fields[parts[0]].fields else map[];
      fields[parts[0] := Obj(SetParts(next, parts[1..], v))]
  }

  function SetPath(fields: Tree, path: Path, v: Node): Tree
    requires |path.parts| > 0
  {
    SetParts(fields, path.parts, v)
  }

  predicate Comparable(p: seq<string>, q: seq<string>) { p <= q || q <= p }

  lemma {:induction false} WalkSetSame(fields: Tree, p: seq<string>, v: Node)
    requires |p| > 0
    ensures Walk(Obj(SetParts(fields, p, v)), p) == Some(v)
    decreases p
  {
    if |p| > 1 {
      var next := if p[0] in fields && fields[p[0]].Obj? then fields[p[0]].fields else map[];
      WalkSetSame(next, p[1..], v);
    }
  }

  lemma {:induction false} WalkSetOther(fields: Tree, p: seq<string>, q: seq<string>, v: Node)
    requires |p| > 0 && |q| > 0 && !Comparable(p, q)
    ensures Walk(Obj(SetParts(fields, p, v)), q) == Walk(Obj(fields), q)
    decreases p
  {
    if p[0] == q[0] {
      assert p == [p[0]] + p[1..] && q == [q[0]] + q[1..];
      assert !Comparable(p[1..], q[1..]);
      var next := if p[0] in fields && fields[p[0]].Obj? then fields[p[0]].fields else map[];
      assert |p| > 1 && |q| > 1;
      WalkSetOther(next, p[1..], q[1..], v);
    }
  }

  // ---- the mapper ---------------------------------------------------------------------------------------

  datatype Field = Field(canonical: string, left: Path, right: Path, transform: string, direction: Direction) {
    function On(side: Side): Path { if side == Left then left else right }

    function Parts(side: Side): seq<string> { On(side).parts }
  }

  /** `known` are the transform names, `onString` what each does to a string. Nothing else is touched,
      and the empty name does nothing. */
  datatype Mapper = Mapper(fields: seq<Field>, known: set<string>, onString: (string, string) -> string) {

    predicate Valid()
    {
      && (forall i, j :: 0 <= i < j < |fields| ==> fields[i].canonical != fields[j].canonical)
      && (forall i :: 0 <= i < |fields| ==> fields[i].transform == "" || fields[i].transform in known)
      && (forall i :: 0 <= i < |fields| ==> PathOk(fields[i].left) && PathOk(fields[i].right))
    }

    function Apply(transform: string, v: Node): Option<Node>
    {
      if transform == "" then Some(v)
      else if transform !in known then None
      else if v.Leaf? && v.value.Str? then Some(Leaf(Str(onString(transform, v.value.s))))
      else Some(v)
    }
  }

  datatype FieldSpec = FieldSpec(
    canonical: string, left: string, right: string, transform: string, direction: Option<Direction>)

  /** What the configuration must say about one field, whatever it says about the others. */
  predicate SpecOk(sync: Direction, known: set<string>, f: FieldSpec)
  {
    && f.canonical != "" && f.left != "" && f.right != ""
    && (f.transform == "" || f.transform in known)
    && Narrow(sync, f.direction).Some?
  }

  predicate SpecsOk(sync: Direction, known: set<string>, specs: seq<FieldSpec>)
  {
    && (forall i :: 0 <= i < |specs| ==> SpecOk(sync, known, specs[i]))
    && (forall i, j :: 0 <= i < j < |specs| ==> specs[i].canonical != specs[j].canonical)
  }

  /** The field a sound specification becomes. */
  predicate Builds(sync: Direction, f: FieldSpec, b: Field)
  {
    && b.canonical == f.canonical && b.transform == f.transform
    && b.left.text == f.left && b.right.text == f.right && PathOk(b.left) && PathOk(b.right)
    && Narrow(sync, f.direction) == Some(b.direction)
  }

  function NamesOf(specs: seq<FieldSpec>): set<string> { set f | f in specs :: f.canonical }

  lemma OneMoreSpec(sync: Direction, known: set<string>, specs: seq<FieldSpec>, f: FieldSpec)
    ensures SpecsOk(sync, known, specs + [f])
       <==> SpecsOk(sync, known, specs) && SpecOk(sync, known, f) && f.canonical !in NamesOf(specs)
    ensures NamesOf(specs + [f]) == NamesOf(specs) + {f.canonical}
  {
    var all := specs + [f];
    assert forall i :: 0 <= i < |specs| ==> all[i] == specs[i];
    assert all[|specs|] == f;
    assert f.canonical in NamesOf(specs) <==> exists i :: 0 <= i < |specs| && specs[i].canonical == f.canonical;
  }

  method NewField(sync: Direction, known: set<string>, f: FieldSpec) returns (r: Option<Field>)
    ensures r.Some? <==> SpecOk(sync, known, f)
    ensures r.Some? ==> Builds(sync, f, r.value)
  {
    if f.canonical == "" || f.left == "" || f.right == "" { return None; }
    if f.transform != "" && f.transform !in known { return None; }
    var direction := Narrow(sync, f.direction);
    if direction.None? { return None; }
    r := Some(Field(f.canonical, MakePath(f.left), MakePath(f.right), f.transform, direction.value));
  }

  /** Every field was built as specified. */
  predicate AllBuilt(sync: Direction, specs: seq<FieldSpec>, fields: seq<Field>)
  {
    |fields| == |specs| && forall i :: 0 <= i < |specs| ==> Builds(sync, specs[i], fields[i])
  }

  /** A mapper is built from all of its specification or not at all. */
  method NewMapper(sync: Direction, specs: seq<FieldSpec>, known: set<string>, onString: (string, string) -> string)
    returns (r: Option<Mapper>)
    ensures r.Some? <==> SpecsOk(sync, known, specs) && |specs| > 0
    ensures r.Some? ==>
      r.value.Valid() && r.value.known == known && r.value.onString == onString && AllBuilt(sync, specs, r.value.fields)
  {
    var fields: seq<Field>, errs, names: set<string> := [], 0, {};
    for i := 0 to |specs|
      invariant errs == 0 <==> SpecsOk(sync, known, specs[..i])
      invariant errs == 0 ==> names == NamesOf(specs[..i]) && AllBuilt(sync, specs[..i], fields)
    {
      assert specs[..i + 1] == specs[..i] + [specs[i]];
      OneMoreSpec(sync, known, specs[..i], specs[i]);
      var field := NewField(sync, known, specs[i]);
      if field.None? || specs[i].canonical in names {
        errs := errs + 1;
      } else {
        fields := fields + [field.value];
        names := names + {specs[i].canonical};
      }
    }
    assert specs[..|specs|] == specs;
    if errs > 0 || |fields| == 0 { return None; }
    r := Some(Mapper(fields, known, onString));
  }

  /** One field rendered, when it may be written into the side and a value was supplied. */
  function WithField(out: Tree, f: Field, side: Side, c: Tree): Tree
    requires |f.On(side).parts| > 0
  {
    if WritesTo(f.direction, side) && f.canonical in c then SetPath(out, f.On(side), c[f.canonical]) else out
  }

  /** The record `FromCanonical` builds out of the first `n` fields. */
  function Rendered(m: Mapper, side: Side, c: Tree, n: nat): Tree
    requires m.Valid() && n <= |m.fields|
  {
    if n == 0 then map[] else WithField(Rendered(m, side, c, n - 1), m.fields[n - 1], side, c)
  }

  method FromCanonical(m: Mapper, side: Side, c: Tree) returns (out: Tree)
    requires m.Valid()
    ensures out == Rendered(m, side, c, |m.fields|)
  {
    out := map[];
    for i := 0 to |m.fields|
      invariant out == Rendered(m, side, c, i)
    {
      var f := m.fields[i];
      assert PathOk(f.left) && PathOk(f.right);
      out := WithField(out, f, side, c);
    }
  }

  /** One field read: absent, refused by its transform, or collected. */
  function Collected(m: Mapper, f: Field, v: Option<Node>, out: Option<Tree>): Option<Tree>
  {
    if out.None? || v.None? then out
    else if m.Apply(f.transform, v.value).None? then None
    else Some(out.value[f.canonical := m.Apply(f.transform, v.value).value])
  }

  /** What `ToCanonical` reads out of the first `n` fields, unless a transform is unknown. */
  function ReadOut(m: Mapper, side: Side, rec: Tree, n: nat): Option<Tree>
    requires n <= |m.fields|
  {
    if n == 0 then Some(map[])
    else Collected(m, m.fields[n - 1], GetPath(rec, m.fields[n - 1].On(side)), ReadOut(m, side, rec, n - 1))
  }

  method ToCanonical(m: Mapper, side: Side, rec: Tree) returns (r: Option<Tree>)
    ensures r == ReadOut(m, side, rec, |m.fields|)
  {
    var out: Tree, errs := map[], 0;
    for i := 0 to |m.fields|
      invariant errs == 0 ==> ReadOut(m, side, rec, i) == Some(out)
      invariant errs > 0 ==> ReadOut(m, side, rec, i).None?
    {
      var f := m.fields[i];
      var v := GetPath(rec, f.On(side));
      if v.Some? {
        var t := m.Apply(f.transform, v.value);
        if t.None? {
          errs := errs + 1;
        } else {
          out := out[f.canonical := t.value];
        }
      }
    }
    r := if errs > 0 then None else Some(out);
  }

  // ---- round trip -----------------------------------------------------------------------------------------

  /** Canonical values a transform leaves alone. */
  ghost predicate Fixed(m: Mapper, c: Tree)
  {
    forall i :: 0 <= i < |m.fields| && m.fields[i].canonical in c ==>
      m.Apply(m.fields[i].transform, c[m.fields[i].canonical]) == Some(c[m.fields[i].canonical])
  }

  predicate Writable(m: Mapper, side: Side, name: string)
  {
    exists i :: 0 <= i < |m.fields| && m.fields[i].canonical == name && WritesTo(m.fields[i].direction, side)
  }

  function Restricted(m: Mapper, side: Side, c: Tree): Tree
  {
    map name | name in c && Writable(m, side, name) :: c[name]
  }

  predicate RoundTrips(m: Mapper, side: Side, c: Tree)
    requires m.Valid()
  {
    ReadOut(m, side, Rendered(m, side, c, |m.fields|), |m.fields|) == Some(Restricted(m, side, c))
  }

  /** No path the sync writes on this side is a dotted prefix of another mapped path, or the other way
      round, or equal to it. */
  predicate PathsApart(m: Mapper, side: Side)
  {
    forall i, j :: 0 <= i < |m.fields| && 0 <= j < |m.fields| && i != j && WritesTo(m.fields[i].direction, side) ==>
      !Comparable(m.fields[i].Parts(side), m.fields[j].Parts(side))
  }

  predicate NoDots(t: Tree) { forall k :: k in t ==> '.' !in k }

  lemma {:induction false} RenderedNoDots(m: Mapper, side: Side, c: Tree, n: nat)
    requires m.Valid() && n <= |m.fields|
    ensures NoDots(Rendered(m, side, c, n))
  {
    if n > 0 {
      RenderedNoDots(m, side, c, n - 1);
      SplitFacts(m.fields[n - 1].On(side).text);
    }
  }

  /** In a record the mapper built, reading a path is walking it. */
  lemma GetPathWalks(t: Tree, path: Path)
    requires NoDots(t) && PathOk(path)
    ensures GetPath(t, path) == Walk(Obj(t), path.parts)
  {
    SplitFacts(path.text);
    if |path.parts| == 1 {
      assert path.parts[1..] == [];
      assert Walk(Obj(t), path.parts) == if path.text in t then Walk(t[path.text], []) else None;
    }
  }

  /** What field `j` should read after the first `n` fields were rendered. */
  function Put(m: Mapper, side: Side, c: Tree, n: nat, j: nat): Option<Node>
    requires j < |m.fields|
  {
    var f := m.fields[j];
    if j < n && WritesTo(f.direction, side) && f.canonical in c then Some(c[f.canonical]) else None
  }

  lemma {:induction false} RenderedReads(m: Mapper, side: Side, c: Tree, n: nat, j: nat)
    requires m.Valid() && PathsApart(m, side) && n <= |m.fields| && j < |m.fields|
    ensures Walk(Obj(Rendered(m, side, c, n)), m.fields[j].Parts(side)) == Put(m, side, c, n, j)
    decreases n
  {
    var q := m.fields[j].Parts(side);
    if n == 0 {
      PartsApart(m, side, j, j);
      NothingToWalk(q);
    } else {
      RenderedReads(m, side, c, n - 1, j);
      PartsApart(m, side, n - 1, j);
      RenderedStep(m, side, c, n, j, q);
    }
  }

  lemma RenderedStep(m: Mapper, side: Side, c: Tree, n: nat, j: nat, q: seq<string>)
    requires m.Valid() && 0 < n <= |m.fields| && j < |m.fields| && q == m.fields[j].Parts(side)
    requires |m.fields[n - 1].Parts(side)| > 0 && |q| > 0
    requires WritesTo(m.fields[n - 1].direction, side) && n - 1 != j ==> !Comparable(m.fields[n - 1].Parts(side), q)
    requires Walk(Obj(Rendered(m, side, c, n - 1)), q) == Put(m, side, c, n - 1, j)
    ensures Walk(Obj(Rendered(m, side, c, n)), q) == Put(m, side, c, n, j)
  {
    var f, before := m.fields[n - 1], Rendered(m, side, c, n - 1);
    assert Rendered(m, side, c, n) == WithField(before, f, side, c);
    ReadAfterField(before, f, side, c, q, j == n - 1);
  }

  lemma NothingToWalk(parts: seq<string>)
    requires |parts| > 0
    ensures Walk(Obj(map[]), parts) == None
  {}

  lemma ReadAfterField(out: Tree, f: Field, side: Side, c: Tree, q: seq<string>, same: bool)
    requires |f.Parts(side)| > 0 && |q| > 0
    requires WritesTo(f.direction, side) ==> if same then f.Parts(side) == q else !Comparable(f.Parts(side), q)
    ensures Walk(Obj(WithField(out, f, side, c)), q)
         == if WritesTo(f.direction, side) && f.canonical in c && same then Some(c[f.canonical]) else Walk(Obj(out), q)
  {
    if WritesTo(f.direction, side) && f.canonical in c {
      OneMoreField(out, f.Parts(side), q, c[f.canonical], same);
    }
  }

  lemma PartsApart(m: Mapper, side: Side, i: nat, j: nat)
    requires m.Valid() && PathsApart(m, side) && i < |m.fields| && j < |m.fields|
    ensures |m.fields[i].Parts(side)| > 0 && |m.fields[j].Parts(side)| > 0
    ensures WritesTo(m.fields[i].direction, side) && i != j ==>
      !Comparable(m.fields[i].Parts(side), m.fields[j].Parts(side))
  {
    assert PathOk(m.fields[i].On(side)) && PathOk(m.fields[j].On(side));
  }

  lemma OneMoreField(out: Tree, p: seq<string>, q: seq<string>, v: Node, same: bool)
    requires |p| > 0 && |q| > 0 && if same then p == q else !Comparable(p, q)
    ensures Walk(Obj(SetParts(out, p, v)), q) == if same then Some(v) else Walk(Obj(out), q)
  {
    if same { WalkSetSame(out, p, v); } else { WalkSetOther(out, p, q, v); }
  }

  /** The canonical values the first `n` fields carry to this side. */
  function Carried(m: Mapper, side: Side, c: Tree, n: nat): Tree
    requires n <= |m.fields|
  {
    if n == 0 then map[]
    else
      var f, rest := m.fields[n - 1], Carried(m, side, c, n - 1);
      if WritesTo(f.direction, side) && f.canonical in c then rest[f.canonical := c[f.canonical]] else rest
  }

  /** Reading the first `n` fields of a record whose paths read as `Put` says collects what they carry. */
  lemma {:induction false} ReadBack(m: Mapper, side: Side, c: Tree, rec: Tree, n: nat)
    requires Fixed(m, c) && n <= |m.fields|
    requires forall j :: 0 <= j < |m.fields| ==> GetPath(rec, m.fields[j].On(side)) == Put(m, side, c, |m.fields|, j)
    ensures ReadOut(m, side, rec, n) == Some(Carried(m, side, c, n))
  {
    if n > 0 {
      ReadBack(m, side, c, rec, n - 1);
      assert GetPath(rec, m.fields[n - 1].On(side)) == Put(m, side, c, |m.fields|, n - 1);
    }
  }

  predicate CarriedBy(m: Mapper, side: Side, name: string, n: nat)
    requires n <= |m.fields|
  {
    exists i :: 0 <= i < n && m.fields[i].canonical == name && WritesTo(m.fields[i].direction, side)
  }

  lemma {:induction false} CarriedMembers(m: Mapper, side: Side, c: Tree, n: nat, name: string)
    requires n <= |m.fields|
    ensures name in Carried(m, side, c, n) <==> name in c && CarriedBy(m, side, name, n)
    ensures name in Carried(m, side, c, n) ==> Carried(m, side, c, n)[name] == c[name]
  {
    if n > 0 {
      CarriedMembers(m, side, c, n - 1, name);
      CarriedByStep(m, side, name, n);
    }
  }

  lemma CarriedByStep(m: Mapper, side: Side, name: string, n: nat)
    requires 0 < n <= |m.fields|
    ensures CarriedBy(m, side, name, n)
       <==> || CarriedBy(m, side, name, n - 1)
            || (m.fields[n - 1].canonical == name && WritesTo(m.fields[n - 1].direction, side))
  {}

  lemma CarriedIsRestricted(m: Mapper, side: Side, c: Tree)
    ensures Carried(m, side, c, |m.fields|) == Restricted(m, side, c)
  {
    forall name: string
      ensures name in Carried(m, side, c, |m.fields|) <==> name in Restricted(m, side, c)
      ensures name in Carried(m, side, c, |m.fields|) ==>
        Carried(m, side, c, |m.fields|)[name] == Restricted(m, side, c)[name]
    {
      CarriedMembers(m, side, c, |m.fields|, name);
    }
  }

  lemma ApartRoundTrips(m: Mapper, side: Side, c: Tree)
    requires m.Valid() && PathsApart(m, side) && Fixed(m, c)
    ensures RoundTrips(m, side, c)
  {
    var rec := Rendered(m, side, c, |m.fields|);
    RenderedNoDots(m, side, c, |m.fields|);
    forall j | 0 <= j < |m.fields|
      ensures GetPath(rec, m.fields[j].On(side)) == Put(m, side, c, |m.fields|, j)
    {
      GetPathWalks(rec, m.fields[j].On(side));
      RenderedReads(m, side, c, |m.fields|, j);
    }
    ReadBack(m, side, c, rec, |m.fields|);
    CarriedIsRestricted(m, side, c);
  }

  // ---- where values go and where they come from --------------------------------------------------------

  /** The path configured for a side, and whether the configured direction writes into that side. */
  predicate Addresses(f: Field, side: Side, path: string, writes: bool)
  {
    match side
    case Left => path == f.left.text && writes == (f.direction != LeftToRight)
    case Right => path == f.right.text && writes == (f.direction != RightToLeft)
  }

  /** A rendered record holds, at each field's own path on the side, the value supplied for it, if the field's
      direction writes there; otherwise nothing is there. */
  lemma RendersAtItsPath(m: Mapper, side: Side, c: Tree, i: nat, path: string, writes: bool)
    requires m.Valid() && PathsApart(m, side) && i < |m.fields| && Addresses(m.fields[i], side, path, writes)
    ensures Walk(Obj(Rendered(m, side, c, |m.fields|)), Split(path))
         == if writes && m.fields[i].canonical in c then Some(c[m.fields[i].canonical]) else None
  {
    RenderedReads(m, side, c, |m.fields|, i);
    assert PathOk(m.fields[i].On(side));
  }

  /** And nothing else: every name at the top of the record is the first of a written path. */
  lemma {:induction false} RendersNothingElse(m: Mapper, side: Side, c: Tree, n: nat, name: string)
    requires m.Valid() && n <= |m.fields| && name in Rendered(m, side, c, n)
    ensures exists i, path ::
      0 <= i < n && Addresses(m.fields[i], side, path, true) && m.fields[i].canonical in c && Split(path)[0] == name
  {
    var f := m.fields[n - 1];
    assert PathOk(f.left) && PathOk(f.right);
    SplitFacts(f.On(side).text);
    if WritesTo(f.direction, side) && f.canonical in c && name == f.Parts(side)[0] {
      assert Addresses(f, side, f.On(side).text, true);
    } else {
      RendersNothingElse(m, side, c, n - 1, name);
    }
  }

  /** What a record holds at a path: under that very name, or else by walking it. */
  predicate LiesAt(rec: Tree, path: string, v: Node)
  {
    if path in rec then v == rec[path] else '.' in path && Walk(Obj(rec), Split(path)) == Some(v)
  }

  lemma GetPathFinds(rec: Tree, path: Path, v: Node)
    requires PathOk(path)
    ensures GetPath(rec, path) == Some(v) <==> LiesAt(rec, path.text, v)
  {
    SplitFacts(path.text);
  }

  /** What a transform makes of a value: strings only. */
  function Transformed(m: Mapper, transform: string, v: Node): Node
  {
    if transform != "" && v.Leaf? && v.value.Str? then Leaf(Str(m.onString(transform, v.value.s))) else v
  }

  lemma {:induction false} ReadOutSucceeds(m: Mapper, side: Side, rec: Tree, n: nat)
    requires m.Valid() && n <= |m.fields|
    ensures ReadOut(m, side, rec, n).Some?
  {
    if n > 0 { ReadOutSucceeds(m, side, rec, n - 1); }
  }

  /** Reading a record yields, for each field, what lies at its own path on that side, put through its own
      transform, and nothing where nothing lies. */
  lemma ReadsAtItsPath(m: Mapper, side: Side, rec: Tree, i: nat, path: string, writes: bool)
    requires m.Valid() && i < |m.fields| && Addresses(m.fields[i], side, path, writes)
    ensures ReadOut(m, side, rec, |m.fields|).Some?
    ensures
      var out, f := ReadOut(m, side, rec, |m.fields|).value, m.fields[i];
      && (f.canonical in out <==> exists v :: LiesAt(rec, path, v))
      && (forall v :: LiesAt(rec, path, v) ==> f.canonical in out && out[f.canonical] == Transformed(m, f.transform, v))
  {
    ReadOutSucceeds(m, side, rec, |m.fields|);
    ReadOutMembers(m, side, rec, |m.fields|, i);
    forall v: Node
      ensures GetPath(rec, m.fields[i].On(side)) == Some(v) <==> LiesAt(rec, path, v)
    {
      assert PathOk(m.fields[i].On(side));
      GetPathFinds(rec, m.fields[i].On(side), v);
    }
    var found := GetPath(rec, m.fields[i].On(side));
    if found.Some? { assert LiesAt(rec, path, found.value); }
  }

  // ---- and only then --------------------------------------------------------------------------------------

  lemma {:induction false} WalkPast(n: Node, p: seq<string>, q: seq<string>)
    ensures Walk(n, p + q) == if Walk(n, p).Some? then Walk(Walk(n, p).value, q) else None
    decreases p
  {
    if |p| == 0 {
      assert p + q == q;
    } else {
      assert (p + q)[0] == p[0] && (p + q)[1..] == p[1..] + q;
      if n.Obj? && p[0] in n.fields { WalkPast(n.fields[p[0]], p[1..], q); }
    }
  }

  lemma PrefixSplit(p: seq<string>, q: seq<string>)
    requires p <= q
    ensures q == p + q[|p|..]
  {}

  /** An object in which the path leads to an end. */
  function Nest(parts: seq<string>): Node
  {
    if |parts| == 0 then Leaf(Null) else Obj(map[parts[0] := Nest(parts[1..])])
  }

  lemma {:induction false} NestWalks(parts: seq<string>)
    ensures Walk(Nest(parts), parts).Some?
  {
    if |parts| > 0 { NestWalks(parts[1..]); }
  }

  /** What a successful round trip says about one field. */
  lemma ReadAtField(m: Mapper, side: Side, c: Tree, j: nat)
    requires m.Valid() && RoundTrips(m, side, c) && j < |m.fields|
    ensures
      var rec := Rendered(m, side, c, |m.fields|);
      var name := m.fields[j].canonical;
      && (Walk(Obj(rec), m.fields[j].Parts(side)).Some? <==> name in c && WritesTo(m.fields[j].direction, side))
      && (name in c && WritesTo(m.fields[j].direction, side) ==>
            m.Apply(m.fields[j].transform, Walk(Obj(rec), m.fields[j].Parts(side)).value) == Some(c[name]))
  {
    var rec := Rendered(m, side, c, |m.fields|);
    RenderedNoDots(m, side, c, |m.fields|);
    GetPathWalks(rec, m.fields[j].On(side));
    ReadOutMembers(m, side, rec, |m.fields|, j);
    var name := m.fields[j].canonical;
    assert name in Restricted(m, side, c) <==> name in c && WritesTo(m.fields[j].direction, side);
  }

  lemma {:induction false} ReadOutMembers(m: Mapper, side: Side, rec: Tree, n: nat, j: nat)
    requires m.Valid() && n <= |m.fields| && j < |m.fields| && ReadOut(m, side, rec, n).Some?
    ensures
      var v, name := GetPath(rec, m.fields[j].On(side)), m.fields[j].canonical;
      && (name in ReadOut(m, side, rec, n).value <==> j < n && v.Some?)
      && (j < n && v.Some? ==> m.Apply(m.fields[j].transform, v.value) == Some(ReadOut(m, side, rec, n).value[name]))
  {
    if n > 0 {
      var v := GetPath(rec, m.fields[n - 1].On(side));
      ReadOutMembers(m, side, rec, n - 1, j);
      CollectedMembers(m, m.fields[n - 1], v, ReadOut(m, side, rec, n - 1), m.fields[j].canonical);
      assert m.fields[n - 1].canonical == m.fields[j].canonical ==> j == n - 1;
    }
  }

  lemma CollectedMembers(m: Mapper, f: Field, v: Option<Node>, out: Option<Tree>, name: string)
    requires Collected(m, f, v, out).Some?
    ensures out.Some?
    ensures
      var r := Collected(m, f, v, out).value;
      && (name in r <==> name in out.value || (name == f.canonical && v.Some?))
      && (name == f.canonical && v.Some? ==> Some(r[name]) == m.Apply(f.transform, v.value))
      && (name in out.value && !(name == f.canonical && v.Some?) ==> r[name] == out.value[name])
  {}

  function Mark(k: int): Node { Leaf(Number(if k == 0 then "0" else "1")) }

  /** Two fields whose paths on a side get in each other's way, and values that show it. */
  lemma ComparablePathsCollide(m: Mapper, side: Side, i: nat, j: nat) returns (c: Tree)
    requires m.Valid() && i < |m.fields| && j < |m.fields| && i != j
    requires WritesTo(m.fields[i].direction, side) && Comparable(m.fields[i].Parts(side), m.fields[j].Parts(side))
    ensures Fixed(m, c) && !RoundTrips(m, side, c)
  {
    var p, q := m.fields[i].Parts(side), m.fields[j].Parts(side);
    var a, b := m.fields[i].canonical, m.fields[j].canonical;
    assert a != b;
    if WritesTo(m.fields[j].direction, side) {
      c := map[a := Mark(0), b := Mark(1)];
      if RoundTrips(m, side, c) { WrittenTwice(m, side, i, j, c); }
    } else {
      c := map[a := if p <= q then Nest(q[|p|..]) else Mark(0)];
      if RoundTrips(m, side, c) { WrittenOnce(m, side, i, j, c); }
    }
  }

  /** Two leaves cannot both come back from comparable paths. */
  lemma WrittenTwice(m: Mapper, side: Side, i: nat, j: nat, c: Tree)
    requires m.Valid() && i < |m.fields| && j < |m.fields| && m.fields[i].canonical != m.fields[j].canonical
    requires WritesTo(m.fields[i].direction, side) && WritesTo(m.fields[j].direction, side)
    requires Comparable(m.fields[i].Parts(side), m.fields[j].Parts(side))
    requires c == map[m.fields[i].canonical := Mark(0), m.fields[j].canonical := Mark(1)]
    ensures !RoundTrips(m, side, c)
  {
    if RoundTrips(m, side, c) {
      ReadAtField(m, side, c, i);
      ReadAtField(m, side, c, j);
      LeavesApart(Obj(Rendered(m, side, c, |m.fields|)), m.fields[i].Parts(side), m.fields[j].Parts(side));
    }
  }

  /** A field that is not written reads through, or out of, one that is. */
  lemma WrittenOnce(m: Mapper, side: Side, i: nat, j: nat, c: Tree)
    requires m.Valid() && i < |m.fields| && j < |m.fields| && m.fields[i].canonical != m.fields[j].canonical
    requires WritesTo(m.fields[i].direction, side) && !WritesTo(m.fields[j].direction, side)
    requires Comparable(m.fields[i].Parts(side), m.fields[j].Parts(side))
    requires
      var p, q := m.fields[i].Parts(side), m.fields[j].Parts(side);
      c == map[m.fields[i].canonical := if p <= q then Nest(q[|p|..]) else Mark(0)]
    ensures !RoundTrips(m, side, c)
  {
    if RoundTrips(m, side, c) {
      ReadAtField(m, side, c, i);
      ReadAtField(m, side, c, j);
      var rec := Obj(Rendered(m, side, c, |m.fields|));
      ReadsThrough(rec, m.fields[i].Parts(side), m.fields[j].Parts(side), c[m.fields[i].canonical]);
    }
  }

  /** Different leaves cannot sit at two comparable paths. */
  lemma LeavesApart(n: Node, p: seq<string>, q: seq<string>)
    requires Comparable(p, q) && Walk(n, p).Some? && Walk(n, q).Some?
    requires Walk(n, p).value.Leaf? && Walk(n, q).value.Leaf?
    ensures Walk(n, p) == Walk(n, q)
  {}

  lemma ReadsThrough(n: Node, p: seq<string>, q: seq<string>, v: Node)
    requires Comparable(p, q) && Walk(n, p) == Some(v) && (p <= q ==> v == Nest(q[|p|..]))
    ensures Walk(n, q).Some?
  {
    if p <= q {
      PrefixSplit(p, q);
      WalkPast(n, p, q[|p|..]);
      NestWalks(q[|p|..]);
    } else {
      PrefixSplit(q, p);
      WalkPast(n, q, p[|q|..]);
    }
  }

  /** Mapper round trip: rendering canonical values for a side and reading them back gives exactly the
      values writable into that side, for all values the transforms leave alone, if and only if no
      written path on that side is a dotted prefix of another mapped path or has one as a prefix. */
  lemma RoundTripIff(m: Mapper, side: Side)
    requires m.Valid()
    ensures (forall c: Tree :: Fixed(m, c) ==> RoundTrips(m, side, c)) <==> PathsApart(m, side)
  {
    if PathsApart(m, side) {
      forall c: Tree | Fixed(m, c) ensures RoundTrips(m, side, c) { ApartRoundTrips(m, side, c); }
    } else {
      var i, j :| 0 <= i < |m.fields| && 0 <= j < |m.fields| && i != j && WritesTo(m.fields[i].direction, side)
                  && Comparable(m.fields[i].Parts(side), m.fields[j].Parts(side));
      var c := ComparablePathsCollide(m, side, i, j);
    }
  }
}
