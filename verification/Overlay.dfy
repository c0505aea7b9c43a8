/** The throw-away layer a dry run writes into (internal/store/overlay.go), and its
    relation to a flat copy of the base. */
module OverlayStore {
  import opened Wrappers
  import opened Store

  datatype Layers = Layers(base: Data, over: Data, deleted: set<Key>)

  /** What shows through the layers for one key. */
  function EntryThrough(o: Layers, k: Key, now: int): Option<Entry>
  {
    if EntryAt(o.over, k, now).Some? then EntryAt(o.over, k, now)
    else if k in o.deleted then None
    else EntryAt(o.base, k, now)
  }

  function VisibleThrough(o: Layers, coll: string, now: int): map<string, Entry>
  {
    var shown := map n | n in Visible(o.base, coll, now) && Key(coll, n) !in o.deleted :: Visible(o.base, coll, now)[n];
    shown + Visible(o.over, coll, now)
  }

  /** What a reader of the layers is shown for a key: the top layer's entry until it expires, then whatever the
      base holds, unless the key was deleted here. */
  ghost predicate Shown(o: Layers, k: Key, e: Entry, now: int)
  {
    if k in o.over && (o.over[k].expiresAt.Never? || now < o.over[k].expiresAt.nanos) then e == o.over[k]
    else
      && k !in o.deleted && k in o.base && e == o.base[k]
      && (o.base[k].expiresAt.Never? || now < o.base[k].expiresAt.nanos)
  }

  lemma ThroughMembers(o: Layers, k: Key, now: int)
    ensures forall e :: EntryThrough(o, k, now) == Some(e) <==> Shown(o, k, e, now)
    ensures k.name in VisibleThrough(o, k.coll, now) <==> EntryThrough(o, k, now).Some?
    ensures k.name in VisibleThrough(o, k.coll, now) ==>
      EntryThrough(o, k, now) == Some(VisibleThrough(o, k.coll, now)[k.name])
  {
    VisibleMembers(o.base, k.coll, now, k.name);
    VisibleMembers(o.over, k.coll, now, k.name);
    assert k == Key(k.coll, k.name);
  }

  /** Without a limit, a listing through the layers has a row for exactly what is shown. */
  lemma ListsShown(o: Layers, coll: string, limit: int, now: int, out: seq<Listed>)
    requires InOrder(VisibleThrough(o, coll, now), limit, out) && limit <= 0
    ensures forall n, e :: Listed(n, e) in out <==> Shown(o, Key(coll, n), e, now)
  {
    var view := VisibleThrough(o, coll, now);
    forall n: string, e: Entry
      ensures Listed(n, e) in out <==> Shown(o, Key(coll, n), e, now)
    {
      ThroughMembers(o, Key(coll, n), now);
      if n in view { var i :| 0 <= i < |out| && out[i].key == n; }
    }
  }

  // ---- commands, on the layers and on a flat copy -----------------------------------

  datatype Command =
    | Put(key: Key, value: seq<byte>, expiresAt: Expiry)
    | Delete(key: Key)
    | Take(key: Key)
    | Sweep

  function OnLayers(o: Layers, c: Command, now: int): Layers
  {
    match c
    case Put(k, v, e) => o.(over := o.over[k := Entry(v, e)], deleted := o.deleted - {k})
    case Delete(k) => o.(over := o.over - {k}, deleted := o.deleted + {k})
    case Take(k) =>
      if EntryThrough(o, k, now).None? then o
      else o.(over := o.over - {k}, deleted := o.deleted + {k})
    case Sweep => o.(over := Swept(o.over, now))
  }

  function OnFlat(d: Data, c: Command, now: int): Data
  {
    match c
    case Put(k, v, e) => d[k := Entry(v, e)]
    case Delete(k) => d - {k}
    case Take(k) => d - {k}
    case Sweep => Swept(d, now)
  }

  // ---- the class ----------------------------------------------------------------------

  class Overlay {
    const base: Mem
    const over: Mem
    var deleted: set<Key>
    var closed: bool

    constructor (base: Mem)
      ensures this.base == base && fresh(over) && over != base
      ensures !closed && !over.closed && State() == Layers(base.data, map[], {})
    {
      this.base := base;
      this.over := new Mem();
      deleted := {};
      closed := false;
    }

    ghost predicate Valid()
      reads this, base, over
    {
      over != base && over.closed == closed
    }

    /** True when a lookup has to go down to the base. */
    ghost predicate FallsThrough(k: Key, now: int)
      reads this, over
    {
      EntryAt(over.data, k, now).None? && k !in deleted
    }

    ghost function State(): Layers
      reads this, base, over
    {
      Layers(base.data, over.data, deleted)
    }

    method Get(k: Key, now: int) returns (r: Reply<Option<seq<byte>>>)
      requires Valid()
      ensures closed || (base.closed && FallsThrough(k, now)) ==> r == Err(ErrClosed)
      ensures !closed && !(base.closed && FallsThrough(k, now)) ==> r == Ok(ValueOf(EntryThrough(State(), k, now)))
      ensures r.Ok? ==> forall v :: r.value == Some(v) <==> exists e: Entry :: e.value == v && Shown(State(), k, e, now)
    {
      if closed { return Err(ErrClosed); }
      ThroughMembers(State(), k, now);
      r := over.Get(k, now);
      if r.Ok? && r.value.Some? { return; }
      if k in deleted { return Ok(None); }
      r := base.Get(k, now);
    }

    method Put(k: Key, value: seq<byte>, expiresAt: Expiry) returns (r: Reply<()>)
      requires Valid()
      modifies this`deleted, over`data
      ensures Valid()
      ensures closed ==> r == Err(ErrClosed) && State() == old(State())
      ensures !closed ==> r == Ok(()) && State() == OnLayers(old(State()), Command.Put(k, value, expiresAt), 0)
    {
      if closed { return Err(ErrClosed); }
      deleted := deleted - {k};
      r := over.Put(k, value, expiresAt);
    }

    method Delete(k: Key) returns (r: Reply<()>)
      requires Valid()
      modifies this`deleted, over`data
      ensures Valid()
      ensures closed ==> r == Err(ErrClosed) && State() == old(State())
      ensures !closed ==> r == Ok(()) && State() == OnLayers(old(State()), Command.Delete(k), 0)
    {
      if closed { return Err(ErrClosed); }
      deleted := deleted + {k};
      r := over.Delete(k);
    }

    method Take(k: Key, now: int) returns (r: Reply<Option<seq<byte>>>)
      requires Valid()
      modifies this`deleted, over`data
      ensures Valid()
      ensures r.Err? <==> closed || (base.closed && old(FallsThrough(k, now)))
      ensures r.Err? ==> State() == old(State())
      ensures r.Ok? ==> State() == OnLayers(old(State()), Command.Take(k), now)
      ensures r.Ok? ==> r == Ok(ValueOf(EntryThrough(old(State()), k, now)))
    {
      r := Get(k, now);
      if r.Err? || r.value.None? { return; }
      deleted := deleted + {k};
      var dropped := over.Delete(k);
    }

    /** The base entries of a collection that no tombstone hides. */
    method Unhidden(coll: string, below: map<string, Entry>) returns (shown: map<string, Entry>)
      ensures shown == map n | n in below && Key(coll, n) !in deleted :: below[n]
    {
      shown := map[];
      var rest := below.Keys;
      while rest != {}
        invariant rest <= below.Keys
        invariant shown == map n | n in below && n !in rest && Key(coll, n) !in deleted :: below[n]
        decreases |rest|
      {
        var n :| n in rest;
        rest := rest - {n};
        if Key(coll, n) !in deleted {
          shown := shown[n := below[n]];
        }
      }
    }

    method List(coll: string, limit: int, now: int) returns (r: Reply<seq<Listed>>)
      requires Valid()
      ensures closed || base.closed ==> r == Err(ErrClosed)
      ensures !closed && !base.closed ==> r.Ok? && IsListing(VisibleThrough(State(), coll, now), limit, r.value)
      ensures r.Ok? && limit <= 0 ==>
        forall n, e :: Listed(n, e) in r.value <==> Shown(State(), Key(coll, n), e, now)
    {
      if closed || base.closed { return Err(ErrClosed); }
      var shown := Unhidden(coll, Visible(base.data, coll, now));
      var merged := shown + Visible(over.data, coll, now);
      var out := ListRows(merged, limit);
      if limit <= 0 { ListsShown(State(), coll, limit, now, out); }
      r := Ok(out);
    }

    /** Only the top layer is swept; the base belongs to the running engine. */
    method Sweep(now: int) returns (r: Reply<nat>)
      requires Valid()
      modifies over`data
      ensures Valid()
      ensures closed ==> r == Err(ErrClosed) && State() == old(State())
      ensures !closed ==> State() == OnLayers(old(State()), Command.Sweep, now)
      ensures forall k :: k in over.data <==>
        && k in old(over.data)
        && (closed || old(over.data)[k].expiresAt.Never? || now < old(over.data)[k].expiresAt.nanos)
    {
      if closed { return Err(ErrClosed); }
      r := over.Sweep(now);
    }
  }

  // ---- refinement of a flat copy --------------------------------------------------------

  /** From `now` on, every key reads the same through the layers and from the flat copy. */
  ghost predicate Refines(o: Layers, flat: Data, now: int)
  {
    forall k, t :: t >= now ==> EntryThrough(o, k, t) == EntryAt(flat, k, t)
  }

  /** A put may hide a base entry only if that entry is already dead or dies first. */
  predicate Covered(base: Data, c: Command, now: int)
  {
    c.Put? && c.key in base && Live(base[c.key].expiresAt, now) ==>
      c.expiresAt.Never? || (base[c.key].expiresAt.At? && base[c.key].expiresAt.nanos <= c.expiresAt.nanos)
  }

  lemma PutShowsThrough(o: Layers, flat: Data, c: Command, now: int, k: Key, t: int)
    requires c.Put? && t >= now && EntryThrough(o, k, t) == EntryAt(flat, k, t)
    requires Covered(o.base, c, now)
    ensures EntryThrough(OnLayers(o, c, now), k, t) == EntryAt(OnFlat(flat, c, now), k, t)
  {}

  /** One command keeps the layers equal to the flat copy exactly when it is covered. */
  lemma StepRefinesIff(o: Layers, flat: Data, c: Command, now: int)
    requires Refines(o, flat, now)
    ensures Refines(OnLayers(o, c, now), OnFlat(flat, c, now), now) <==> Covered(o.base, c, now)
  {
    var o', flat' := OnLayers(o, c, now), OnFlat(flat, c, now);
    if Covered(o.base, c, now) {
      forall k, t | t >= now
        ensures EntryThrough(o', k, t) == EntryAt(flat', k, t)
      {
        assert EntryThrough(o, k, t) == EntryAt(flat, k, t);
        if c.Put? { PutShowsThrough(o, flat, c, now, k, t); }
        if c.Take? && c.key == k {
          assert EntryThrough(o, k, now) == EntryAt(flat, k, now);
          TakenStaysGone(o, flat, k, now, t);
        }
      }
    } else {
      var t := if c.expiresAt.nanos > now then c.expiresAt.nanos else now;
      assert EntryThrough(o', c.key, t) != EntryAt(flat', c.key, t);
    }
  }

  /** A key nobody can see now cannot be seen later either. */
  lemma TakenStaysGone(o: Layers, flat: Data, k: Key, now: int, t: int)
    requires t >= now && EntryThrough(o, k, now) == EntryAt(flat, k, now)
    ensures EntryThrough(OnLayers(o, Take(k), now), k, t) == None
  {}

  // ---- whole runs ---------------------------------------------------------------------------

  datatype Timed = Timed(now: int, command: Command)

  predicate Ordered(run: seq<Timed>, start: int)
  {
    |run| > 0 ==> start <= run[0].now && Ordered(run[1..], run[0].now)
  }

  function RunLayers(o: Layers, run: seq<Timed>): Layers
    decreases run
  {
    if |run| == 0 then o else RunLayers(OnLayers(o, run[0].command, run[0].now), run[1..])
  }

  function RunFlat(d: Data, run: seq<Timed>): Data
    decreases run
  {
    if |run| == 0 then d else RunFlat(OnFlat(d, run[0].command, run[0].now), run[1..])
  }

  function EndTime(run: seq<Timed>, start: int): int
  {
    if |run| == 0 then start else run[|run| - 1].now
  }

  /** What the run says about a key: the entry of the last put, or that it was removed, or nothing. */
  function LastWord(run: seq<Timed>, k: Key): Option<Option<Entry>>
    decreases run
  {
    if |run| == 0 then None
    else if LastWord(run[1..], k).Some? then LastWord(run[1..], k)
    else match run[0].command
      case Put(k', v, e) => if k' == k then Some(Some(Entry(v, e))) else None
      case Delete(k') => if k' == k then Some(None) else None
      case Take(k') => if k' == k then Some(None) else None
      case Sweep => None
  }

  /** After any run on a plain store a reader finds the entry last put, or else the one that was there before,
      if it was not removed since and does not expire or expires later. Sweeps make no difference. */
  lemma {:induction false} ReadsLastWord(d: Data, run: seq<Timed>, start: int, k: Key, t: int)
    requires Ordered(run, start) && t >= EndTime(run, start)
    ensures
      var word := LastWord(run, k);
      var stands := if word.Some? then word.value else if k in d then Some(d[k]) else None;
      EntryAt(RunFlat(d, run), k, t)
        == if stands.Some? && (stands.value.expiresAt.Never? || t < stands.value.expiresAt.nanos) then stands else None
    decreases run
  {
    if |run| > 0 {
      var now := run[0].now;
      assert EndTime(run, start) == EndTime(run[1..], now);
      OrderedEnds(run[1..], now);
      ReadsLastWord(OnFlat(d, run[0].command, now), run[1..], now, k, t);
    }
  }

  lemma {:induction false} OrderedEnds(run: seq<Timed>, start: int)
    requires Ordered(run, start)
    ensures start <= EndTime(run, start)
    decreases run
  {
    if |run| > 0 {
      OrderedEnds(run[1..], run[0].now);
      assert EndTime(run, start) == EndTime(run[1..], run[0].now);
    }
  }

  /** What the layers mean a key to hold: the layer that last spoke about it decides, dead or alive. */
  function Meant(o: Layers, k: Key, t: int): Option<Entry>
  {
    if k in o.over then EntryAt(o.over, k, t) else if k in o.deleted then None else EntryAt(o.base, k, t)
  }

  ghost predicate Mirrors(o: Layers, flat: Data, now: int)
  {
    && (forall k :: k in o.over ==> k !in o.deleted)
    && forall k, t :: t >= now ==> Meant(o, k, t) == EntryAt(flat, k, t)
  }

  /** An entry of the top layer has expired over a base entry that is still live. */
  predicate Exposed(o: Layers, k: Key, t: int)
  {
    k in o.over && EntryAt(o.over, k, t).None? && EntryAt(o.base, k, t).Some?
  }

  ghost predicate NothingExposed(o: Layers, t: int) { forall k :: !Exposed(o, k, t) }

  lemma MeantUnlessExposed(o: Layers, k: Key, t: int)
    requires k in o.over ==> k !in o.deleted
    ensures EntryThrough(o, k, t) == Meant(o, k, t) <==> !Exposed(o, k, t)
  {}

  /** The layers keep meaning what the flat copy holds, through every command but a sweep that
      comes upon an exposed entry and forgets that it was ever written. */
  lemma StepMirrorsIff(o: Layers, flat: Data, c: Command, now: int)
    requires Mirrors(o, flat, now)
    ensures Mirrors(OnLayers(o, c, now), OnFlat(flat, c, now), now) <==> (c.Sweep? ==> NothingExposed(o, now))
  {
    var o', flat' := OnLayers(o, c, now), OnFlat(flat, c, now);
    if c.Sweep? ==> NothingExposed(o, now) {
      forall k, t | t >= now
        ensures Meant(o', k, t) == EntryAt(flat', k, t)
      {
        MeantAfter(o, flat, c, now, k, t);
      }
    } else {
      var k :| Exposed(o, k, now);
      assert Meant(o, k, now) == EntryAt(flat, k, now);
      assert Meant(o', k, now) != EntryAt(flat', k, now);
    }
  }

  lemma MeantAfter(o: Layers, flat: Data, c: Command, now: int, k: Key, t: int)
    requires t >= now && (k in o.over ==> k !in o.deleted) && (c.Sweep? ==> !Exposed(o, k, now))
    requires Meant(o, k, t) == EntryAt(flat, k, t) && Meant(o, k, now) == EntryAt(flat, k, now)
    ensures Meant(OnLayers(o, c, now), k, t) == EntryAt(OnFlat(flat, c, now), k, t)
  {}

  ghost predicate SweepsClear(o: Layers, run: seq<Timed>)
    decreases run
  {
    |run| > 0 ==>
      && (run[0].command.Sweep? ==> NothingExposed(o, run[0].now))
      && SweepsClear(OnLayers(o, run[0].command, run[0].now), run[1..])
  }

  lemma {:induction false} RunRefines(o: Layers, flat: Data, run: seq<Timed>, start: int)
    requires Mirrors(o, flat, start) && Ordered(run, start) && SweepsClear(o, run)
    ensures RunLayers(o, run).base == o.base
    ensures Mirrors(RunLayers(o, run), RunFlat(flat, run), EndTime(run, start))
    decreases run
  {
    if |run| > 0 {
      var c, now := run[0].command, run[0].now;
      assert Mirrors(o, flat, now);
      StepMirrorsIff(o, flat, c, now);
      RunRefines(OnLayers(o, c, now), OnFlat(flat, c, now), run[1..], now);
      assert EndTime(run, start) == EndTime(run[1..], now);
    }
  }

  ghost predicate ReadsAgree(o: Layers, flat: Data, t: int)
  {
    forall k :: EntryThrough(o, k, t) == EntryAt(flat, k, t)
  }

  lemma ReadsAgreeIff(o: Layers, flat: Data, now: int, t: int)
    requires Mirrors(o, flat, now) && t >= now
    ensures ReadsAgree(o, flat, t) <==> NothingExposed(o, t)
  {
    forall k: Key
      ensures EntryThrough(o, k, t) == EntryAt(flat, k, t) <==> !Exposed(o, k, t)
    {
      MeantUnlessExposed(o, k, t);
      assert Meant(o, k, t) == EntryAt(flat, k, t);
    }
  }

  /** Equal reads give equal collection views. */
  lemma ViewsAgree(o: Layers, flat: Data, coll: string, t: int)
    requires ReadsAgree(o, flat, t)
    ensures VisibleThrough(o, coll, t) == Visible(flat, coll, t)
  {
    forall n: string
      ensures n in VisibleThrough(o, coll, t) <==> n in Visible(flat, coll, t)
      ensures n in Visible(flat, coll, t) ==> VisibleThrough(o, coll, t)[n] == Visible(flat, coll, t)[n]
    {
      var k := Key(coll, n);
      ThroughMembers(o, k, t);
      VisibleMembers(flat, coll, t, n);
      assert EntryThrough(o, k, t) == EntryAt(flat, k, t);
    }
  }

  /** A dry run over an overlay against the same run over a private copy of the base: the base is left
      alone, and at any time from the end of the run on all reads agree if and only if no entry the dry
      run wrote has expired over a live base entry; then every collection lists the same too. */
  lemma OverlayIsFlatCopy(
    base: Data, run: seq<Timed>, start: int, t: int, coll: string, limit: int, a: seq<Listed>, b: seq<Listed>)
    requires Ordered(run, start) && SweepsClear(Layers(base, map[], {}), run) && t >= EndTime(run, start)
    ensures
      var o, flat := RunLayers(Layers(base, map[], {}), run), RunFlat(base, run);
      && o.base == base
      && (ReadsAgree(o, flat, t) <==> NothingExposed(o, t))
      && (NothingExposed(o, t) ==> VisibleThrough(o, coll, t) == Visible(flat, coll, t))
      && (NothingExposed(o, t) ==>
            IsListing(VisibleThrough(o, coll, t), limit, a) && IsListing(Visible(flat, coll, t), limit, b) ==> a == b)
  {
    var o, flat := RunLayers(Layers(base, map[], {}), run), RunFlat(base, run);
    RunRefines(Layers(base, map[], {}), base, run, start);
    ReadsAgreeIff(o, flat, EndTime(run, start), t);
    if NothingExposed(o, t) {
      ViewsAgree(o, flat, coll, t);
      if IsListing(VisibleThrough(o, coll, t), limit, a) && IsListing(Visible(flat, coll, t), limit, b) {
        ListingUnique(Visible(flat, coll, t), limit, a, b);
      }
    }
  }

  /** Once a dry run is over and nothing it wrote has expired over a live base entry, a reader finds through the
      layers what the dry run last said about a key, or else what the base holds. */
  lemma DryRunReadsLastWord(base: Data, run: seq<Timed>, start: int, k: Key, t: int)
    requires Ordered(run, start) && SweepsClear(Layers(base, map[], {}), run) && t >= EndTime(run, start)
    requires NothingExposed(RunLayers(Layers(base, map[], {}), run), t)
    ensures
      var word := LastWord(run, k);
      var stands := if word.Some? then word.value else if k in base then Some(base[k]) else None;
      EntryThrough(RunLayers(Layers(base, map[], {}), run), k, t)
        == if stands.Some? && (stands.value.expiresAt.Never? || t < stands.value.expiresAt.nanos) then stands else None
  {
    OverlayIsFlatCopy(base, run, start, t, k.coll, 0, [], []);
    ReadsLastWord(base, run, start, k, t);
  }

  /** The uncovered case is real: a short-lived write over a permanent entry expires and
      the base shows through again. */
  lemma UncoveredPutShowsBase(k: Key, before: seq<byte>, after: seq<byte>)
    ensures
      var base: Data := map[k := Entry(before, Never)];
      var run := [Timed(0, Put(k, after, At(5)))];
      && EntryThrough(RunLayers(Layers(base, map[], {}), run), k, 5) == Some(Entry(before, Never))
      && EntryAt(RunFlat(base, run), k, 5) == None
  {}

  /** And one that is replaced in time exposes nothing, ever. */
  lemma ReplacedPutIsFine(k: Key, before: seq<byte>, after: seq<byte>, final: seq<byte>, t: int)
    ensures
      var base: Data := map[k := Entry(before, Never)];
      var run := [Timed(0, Put(k, after, At(5))), Timed(3, Put(k, final, Never))];
      var o := RunLayers(Layers(base, map[], {}), run);
      NothingExposed(o, t) && (t >= 3 ==> ReadsAgree(o, RunFlat(base, run), t))
  {
    var base: Data := map[k := Entry(before, Never)];
    var run := [Timed(0, Put(k, after, At(5))), Timed(3, Put(k, final, Never))];
    var o0 := Layers(base, map[], {});
    var o1 := OnLayers(o0, Put(k, after, At(5)), 0);
    assert run[1..] == [Timed(3, Put(k, final, Never))] && run[1..][1..] == [];
    assert RunLayers(o0, run) == RunLayers(o1, run[1..]) == OnLayers(o1, Put(k, final, Never), 3);
    if t >= 3 { OverlayIsFlatCopy(base, run, 0, t, "", 0, [], []); }
  }
}
