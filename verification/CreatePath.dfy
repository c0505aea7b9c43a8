/** Creating the counterpart of one record (`process`, `create`, `write` and the not-found branch of
    `reconcile` in internal/engine/pipeline.go) under repeated events, echoes, lost responses and crashes.
    The per-record lock lets one event at a time past it, so an attempt in progress is one `Pc`. */
module CreatePath {
  import opened Wrappers
  import opened Model
  import opened Digest
  import Idem
  import Identity

  /** The source record has fixed values; `far` is the connector it is to be created on, and its own
      connector is the near one. The values being fixed, so is the key a create derives from the record
      it is made for. */
  datatype Config = Config(
    kind: string, source: Ref, payload: Fields, far: string,
    keys: seq<string>, onAmbiguous: Identity.OnAmbiguous, ttl: int, key: Ref -> Hash)

  /** The source record or a record on the far side: those an event may be about. */
  predicate IsParty(cfg: Config, r: Ref) { r == cfg.source || IsFarRef(cfg, r) }

  predicate IsFarRef(cfg: Config, r: Ref) { r.connector == cfg.far && r.kind == cfg.kind }

  function Configured(
    sync: string, kind: string, source: Ref, payload: Fields, far: string,
    names: seq<string>, keys: seq<string>, onAmbiguous: Identity.OnAmbiguous, ttl: int): Config
  {
    Config(kind, source, payload, far, keys, onAmbiguous, ttl,
           (from: Ref) =>
             CreateKey(sync, kind, from, if from.connector == far then source.connector else far, payload, names))
  }

  function CreateKey(sync: string, kind: string, from: Ref, to: string, payload: Fields, names: seq<string>): Hash
  {
    IdemKey(sync, kind, from, Ref(to, kind, ""), SnapshotHash(payload, names).preimage)
  }

  /** One create key is nobody else's: two creates of a sync share it exactly when they are made for the same
      record, into the same peer, with the same mapped values. */
  lemma CreateKeyIsOwn(
    sync: string, kind: string, from: Ref, to: string, payload: Fields, from': Ref, to': string, payload': Fields,
    names: seq<string>)
    ensures
      CreateKey(sync, kind, from, to, payload, names) == CreateKey(sync, kind, from', to', payload', names)
      <==> && from.connector == from'.connector && from.remoteID == from'.remoteID && to == to'
           && AgreeOn(payload, payload', names)
  {
    SnapshotHashDecidesFields(payload, payload', names);
    IdemKeyInjective(sync, kind, from, Ref(to, kind, ""), SnapshotHash(payload, names).preimage,
                     sync, kind, from', Ref(to', kind, ""), SnapshotHash(payload', names).preimage);
  }

  /** Creates made for different records have different keys. */
  ghost predicate Distinguishes(cfg: Config)
  {
    forall a: Ref, b: Ref {:trigger cfg.key(a), cfg.key(b)} ::
      IsParty(cfg, a) && IsParty(cfg, b) && cfg.key(a) == cfg.key(b) ==> a == b
  }

  /** The program's own key does that. */
  lemma ConfiguredDistinguishes(
    sync: string, kind: string, source: Ref, payload: Fields, far: string,
    names: seq<string>, keys: seq<string>, onAmbiguous: Identity.OnAmbiguous, ttl: int)
    requires source.kind == kind
    ensures Distinguishes(Configured(sync, kind, source, payload, far, names, keys, onAmbiguous, ttl))
  {
    var cfg := Configured(sync, kind, source, payload, far, names, keys, onAmbiguous, ttl);
    forall a: Ref, b: Ref | IsParty(cfg, a) && IsParty(cfg, b) && cfg.key(a) == cfg.key(b)
      ensures a == b
    {
      CreateKeyIsOwn(sync, kind, a, Across(cfg, a), payload, b, Across(cfg, b), payload, names);
    }
  }

  /** How far an attempt has got: nothing under way, the upsert sent, its answer received, or the
      answer committed to the replay cache. `from` is the record the create is made for. */
  datatype Pc =
    | Idle
    | Calling(from: Ref, begin: int)
    | Got(from: Ref, ref: Ref, begin: int)
    | Marked(from: Ref, ref: Ref)

  /** An upsert made for `from` that may have landed. */
  datatype Landing = Landing(from: Ref, begin: int)

  /** `there` are the copies on the far side and `near` the records on the near one; `bornBack` counts
      the creates sent to the near side in answer to an echo. Only `pc` is lost in a crash. */
  datatype State = State(
    now: int, marks: Idem.Marks, seen: Identity.Seen, links: map<Ref, Identity.Link>,
    there: set<Ref>, near: set<Ref>, landed: seq<Landing>, bornBack: nat, pc: Pc)

  /** An event about the source record, or the echo of a copy, which the origin log may or may not
      recognise; the answers an upsert may get; and what else goes on. */
  datatype Step =
    | Event(from: Ref, suppressed: bool)
    | Succeed(ref: Ref)
    | Refuse
    | Lose(arrived: Option<Ref>)
    | CommitMark
    | CommitPair
    | Crash(arrived: Option<Ref>)
    | Poll(ref: Ref)
    | Delete(ref: Ref)
    | NearCreated(ref: Ref)
    | Tick(to: int)
    | OtherIndexed(ref: Ref, values: Fields)
    | OtherDeindexed(ref: Ref)
    | OtherLinked(link: Identity.Link)
    | OtherUnlinked(ref: Ref)
    | OtherMarked(key: Hash, mark: Idem.Mark)

  /** The peer a record's counterpart lives on. */
  function Across(cfg: Config, from: Ref): string
  {
    if from.connector == cfg.far then cfg.source.connector else cfg.far
  }

  /** The near record is the left end of a link. */
  function LinkOf(cfg: Config, from: Ref, to: Ref): Identity.Link
  {
    if from.connector == cfg.far then Identity.Link(to, from) else Identity.Link(from, to)
  }

  /** Does the record's own peer hold it? */
  predicate InPlace(cfg: Config, s: State, r: Ref) { if r.connector == cfg.far then r in s.there else r in s.near }

  /** `commitPair`: the link in both directions, and both records indexed. */
  function Paired(cfg: Config, s: State, from: Ref, to: Ref): State
  {
    var link := LinkOf(cfg, from, to);
    s.(links := s.links[link.left := link][link.right := link],
       seen := s.seen[from := cfg.payload][to := cfg.payload])
  }

  /** `dropLink`: the record's link row pair goes, and neither record stays indexed. */
  function Dropped(cfg: Config, s: State, from: Ref, to: Ref): State
  {
    var links := if from in s.links then s.links - {s.links[from].left, s.links[from].right} else s.links;
    s.(links := links, seen := s.seen - {from, to})
  }

  /** The create made for `from`, as far as the call. */
  function Attempt(cfg: Config, s: State, from: Ref): State
  {
    match Idem.Decide(s.marks, cfg.key(from), s.now)
    case Replayed(id) => Paired(cfg, s, from, Ref(Across(cfg, from), cfg.kind, id))
    case Recheck => s
    case Proceed =>
      s.(marks := Idem.Begun(s.marks, cfg.key(from), s.now, cfg.ttl), pc := Calling(from, s.now),
         bornBack := if from == cfg.source then s.bornBack else s.bornBack + 1)
  }

  /** Reconciling with a counterpart. One that is gone is unlinked and made anew; the source record and its
      copies hold the same values, so there only the pair is recorded; with any other record, what happens
      is that record's business. */
  function Met(cfg: Config, s: State, from: Ref, to: Ref): State
  {
    if !InPlace(cfg, s, to) then Attempt(cfg, Dropped(cfg, s, from, to), from)
    else if from == cfg.source || to == cfg.source then Paired(cfg, s, from, to)
    else s
  }

  /** Where an event goes once the counterpart was looked for. */
  function Routed(cfg: Config, s: State, from: Ref, d: Identity.Resolution): State
  {
    match d
    case Review => s
    case Skip => s
    case Create => Attempt(cfg, s, from)
    case Linked(b) => Met(cfg, s, from, b)
    case Matched(b) => Met(cfg, s, from, b)
  }

  function Indexed(cfg: Config, s: State, from: Ref): State { s.(seen := s.seen[from := cfg.payload]) }

  ghost function Decided(cfg: Config, s: State, from: Ref): Identity.Resolution
  {
    var found := Identity.Matches(cfg.keys, cfg.kind, s.seen, Across(cfg, from), cfg.payload);
    Identity.Decide(cfg.onAmbiguous, s.links, from, found)
  }

  ghost function AfterEvent(cfg: Config, s: State, from: Ref): State
  {
    Routed(cfg, Indexed(cfg, s, from), from, Decided(cfg, Indexed(cfg, s, from), from))
  }

  function WithRecord(cfg: Config, s: State, r: Ref): State
  {
    if r.connector == cfg.far then s.(there := s.there + {r}) else s.(near := s.near + {r})
  }

  function Unanswered(cfg: Config, s: State, from: Ref, begin: int, arrived: Option<Ref>): State
  {
    var s1 := s.(pc := Idle, landed := s.landed + [Landing(from, begin)]);
    if arrived.Some? then WithRecord(cfg, s1, arrived.value) else s1
  }

  ghost predicate Enabled(cfg: Config, s: State, step: Step)
  {
    match step
    case Event(from, _) => s.pc.Idle? && IsParty(cfg, from) && (from != cfg.source ==> from in s.there)
    case Succeed(ref) => s.pc.Calling? && IsNew(cfg, s, s.pc.from, ref)
    case Refuse => s.pc.Calling?
    case Lose(arrived) => s.pc.Calling? && (arrived.Some? ==> IsNew(cfg, s, s.pc.from, arrived.value))
    case CommitMark => s.pc.Got?
    case CommitPair => s.pc.Marked?
    case Crash(arrived) => arrived.Some? ==> s.pc.Calling? && IsNew(cfg, s, s.pc.from, arrived.value)
    case Poll(ref) => ref == cfg.source || ref in s.there
    case Delete(_) => true
    case NearCreated(_) => true
    case Tick(to) => to >= s.now
    case OtherIndexed(ref, values) => IsOther(cfg, s, ref) && !Shares(cfg, ref, values)
    case OtherDeindexed(ref) => IsOther(cfg, s, ref)
    case OtherLinked(link) => IsOther(cfg, s, link.left) && IsOther(cfg, s, link.right)
    case OtherUnlinked(ref) => IsOther(cfg, s, ref)
    case OtherMarked(key, _) => forall from :: IsParty(cfg, from) ==> cfg.key(from) != key
  }

  /** A record that has just come to be across from `from`, or was known to be there: no link to a record that
      is gone names it. */
  predicate IsNew(cfg: Config, s: State, from: Ref, r: Ref)
  {
    r.kind == cfg.kind && r.connector == Across(cfg, from) && (r in s.links ==> InPlace(cfg, s, r))
  }

  /** The business of other records of the same sync: neither the source record nor a copy of it. */
  predicate IsOther(cfg: Config, s: State, r: Ref) { r != cfg.source && r !in s.there }

  /** Would a record with these values be taken for the source record, or for its copy? */
  predicate Shares(cfg: Config, r: Ref, values: Fields)
  {
    var held := Identity.HeldKeys(cfg.keys, r.connector, cfg.kind, values);
    r.kind == cfg.kind && held * Identity.HeldKeys(cfg.keys, r.connector, cfg.kind, cfg.payload) != {}
  }

  ghost function Next(cfg: Config, s: State, step: Step): State
    requires Enabled(cfg, s, step)
  {
    match step
    case Event(from, suppressed) => if suppressed then s else AfterEvent(cfg, s, from)
    case Succeed(ref) =>
      WithRecord(cfg, s, ref).(
        landed := s.landed + [Landing(s.pc.from, s.pc.begin)],
        pc := Got(s.pc.from, ref, s.pc.begin))
    case Refuse => s.(marks := Idem.Abandoned(s.marks, cfg.key(s.pc.from)), pc := Idle)
    case Lose(arrived) => Unanswered(cfg, s, s.pc.from, s.pc.begin, arrived)
    case CommitMark =>
      s.(marks := Idem.Committed(s.marks, cfg.key(s.pc.from), s.pc.ref.remoteID, s.now, cfg.ttl),
         pc := Marked(s.pc.from, s.pc.ref))
    case CommitPair => Paired(cfg, s, s.pc.from, s.pc.ref).(pc := Idle)
    case Crash(arrived) =>
      if s.pc.Calling? then Unanswered(cfg, s, s.pc.from, s.pc.begin, arrived) else s.(pc := Idle)
    case Poll(ref) => Indexed(cfg, s, ref)
    case Delete(ref) => s.(there := s.there - {ref}, near := s.near - {ref})
    case NearCreated(ref) => s.(near := s.near + {ref})
    case Tick(to) => s.(now := to)
    case OtherIndexed(ref, values) => s.(seen := s.seen[ref := values])
    case OtherDeindexed(ref) => s.(seen := s.seen - {ref})
    case OtherLinked(link) => s.(links := s.links[link.left := link][link.right := link])
    case OtherUnlinked(ref) => s.(links := s.links - {ref})
    case OtherMarked(key, mark) => s.(marks := s.marks[key := mark])
  }

  ghost predicate IsRun(cfg: Config, s: State, steps: seq<Step>)
    decreases steps
  {
    |steps| > 0 ==> Enabled(cfg, s, steps[0]) && IsRun(cfg, Next(cfg, s, steps[0]), steps[1..])
  }

  ghost function Run(cfg: Config, s: State, steps: seq<Step>): State
    requires IsRun(cfg, s, steps)
    decreases steps
  {
    if |steps| == 0 then s else Run(cfg, Next(cfg, s, steps[0]), steps[1..])
  }

  // ---- creates are spaced by the cache's lifetime ------------------------------------------------

  /** When the upserts made for `who` began. */
  function Times(landed: seq<Landing>, who: Ref): seq<int>
  {
    if |landed| == 0 then []
    else
      var last := landed[|landed| - 1];
      Times(landed[..|landed| - 1], who) + if last.from == who then [last.begin] else []
  }

  lemma OneMoreLanding(landed: seq<Landing>, l: Landing, who: Ref)
    ensures Times(landed + [l], who) == Times(landed, who) + if l.from == who then [l.begin] else []
  {
    assert (landed + [l])[..|landed + [l]| - 1] == landed;
  }

  predicate Spaced(times: seq<int>, ttl: int)
  {
    forall i, j :: 0 <= i < j < |times| ==> times[j] >= times[i] + ttl
  }

  predicate AllBefore(times: seq<int>, t: int) { forall i :: 0 <= i < |times| ==> times[i] <= t }

  /** While an upsert might have landed within the last lifetime, a mark for the key is still there; `calling`
      is when the upsert now out began. */
  ghost predicate GuardedBy(ttl: int, now: int, marks: Idem.Marks, key: Hash, times: seq<int>, calling: Option<int>)
  {
    && ttl > 0
    && Spaced(times, ttl)
    && AllBefore(times, now)
    && (AllBefore(times, now - ttl) || (key in marks && AllBefore(times, marks[key].expires - ttl)))
    && (calling.Some? ==>
          && calling.value <= now && AllBefore(times, calling.value - ttl)
          && key in marks && marks[key].expires == calling.value + ttl)
  }

  function CallingFor(pc: Pc, who: Ref): Option<int> { if pc.Calling? && pc.from == who then Some(pc.begin) else None }

  ghost predicate Guarded(cfg: Config, s: State, who: Ref)
  {
    && Distinguishes(cfg) && IsParty(cfg, who) && (!s.pc.Idle? ==> IsParty(cfg, s.pc.from))
    && GuardedBy(cfg.ttl, s.now, s.marks, cfg.key(who), Times(s.landed, who), CallingFor(s.pc, who))
  }

  lemma AttemptGuarded(cfg: Config, s: State, from: Ref, who: Ref)
    requires Guarded(cfg, s, who) && s.pc.Idle? && IsParty(cfg, from)
    ensures Guarded(cfg, Attempt(cfg, s, from), who)
  {}

  lemma EventGuarded(cfg: Config, s: State, from: Ref, who: Ref)
    requires Guarded(cfg, s, who) && s.pc.Idle? && IsParty(cfg, from)
    ensures Guarded(cfg, AfterEvent(cfg, s, from), who)
  {
    RoutedGuarded(cfg, Indexed(cfg, s, from), from, Decided(cfg, Indexed(cfg, s, from), from), who);
  }

  lemma RoutedGuarded(cfg: Config, s: State, from: Ref, d: Identity.Resolution, who: Ref)
    requires Guarded(cfg, s, who) && s.pc.Idle? && IsParty(cfg, from)
    ensures Guarded(cfg, Routed(cfg, s, from, d), who)
  {
    if d.Create? {
      AttemptGuarded(cfg, s, from, who);
    } else if d.Linked? || d.Matched? {
      AttemptGuarded(cfg, Dropped(cfg, s, from, d.peer), from, who);
    }
  }

  /** The upsert may have landed: its begin time joins the list, its mark still stands. */
  lemma LandedGuarded(cfg: Config, s: State, s': State, who: Ref)
    requires Guarded(cfg, s, who) && s.pc.Calling? && !s'.pc.Calling? && (!s'.pc.Idle? ==> IsParty(cfg, s'.pc.from))
    requires s'.now == s.now && s'.marks == s.marks && s'.landed == s.landed + [Landing(s.pc.from, s.pc.begin)]
    ensures Guarded(cfg, s', who)
  {
    OneMoreLanding(s.landed, Landing(s.pc.from, s.pc.begin), who);
  }

  lemma AnswerGuarded(cfg: Config, s: State, step: Step, who: Ref)
    requires Guarded(cfg, s, who) && Enabled(cfg, s, step)
    requires step.Refuse? || step.CommitMark? || step.CommitPair? || (step.Crash? && !s.pc.Calling?)
    ensures Guarded(cfg, Next(cfg, s, step), who)
  {}

  lemma StepGuarded(cfg: Config, s: State, step: Step, who: Ref)
    requires Guarded(cfg, s, who) && Enabled(cfg, s, step)
    ensures Guarded(cfg, Next(cfg, s, step), who)
  {
    if step.Event? {
      if !step.suppressed { EventGuarded(cfg, s, step.from, who); }
    } else if step.Succeed? || step.Lose? || (step.Crash? && s.pc.Calling?) {
      LandedGuarded(cfg, s, Next(cfg, s, step), who);
    } else if step.Refuse? || step.CommitMark? || step.CommitPair? || step.Crash? {
      AnswerGuarded(cfg, s, step, who);
    } else {
      QuietGuarded(cfg, s, Next(cfg, s, step), who);
    }
  }

  /** Time passes, and nothing happens to this key. */
  lemma QuietGuarded(cfg: Config, s: State, s': State, who: Ref)
    requires Guarded(cfg, s, who) && s'.now >= s.now && s'.landed == s.landed && s'.pc == s.pc
    requires cfg.key(who) in s.marks ==> cfg.key(who) in s'.marks && s'.marks[cfg.key(who)] == s.marks[cfg.key(who)]
    ensures Guarded(cfg, s', who)
  {}

  /** No duplicate create: over any interleaving of repeated events, echoes, answered failures, lost
      responses, deletions, polls and crashes, two upserts that may both have landed under one create
      key, the source record's or that of a create sent back, began at least one cache lifetime apart. */
  lemma {:induction false} CreatesAreSpaced(cfg: Config, s: State, steps: seq<Step>, who: Ref)
    requires Guarded(cfg, s, who) && IsRun(cfg, s, steps)
    ensures Guarded(cfg, Run(cfg, s, steps), who)
    ensures Spaced(Times(Run(cfg, s, steps).landed, who), cfg.ttl)
    decreases steps
  {
    if |steps| > 0 {
      StepGuarded(cfg, s, steps[0], who);
      CreatesAreSpaced(cfg, Next(cfg, s, steps[0]), steps[1..], who);
    }
  }

  // ---- what one event comes to, on the link table, the index and the marks --------------------------------

  /** A record of the peer across from `from`. */
  predicate IsAcross(cfg: Config, from: Ref, r: Ref)
  {
    r.kind == cfg.kind && r.connector == (if from.connector == cfg.far then cfg.source.connector else cfg.far)
  }

  predicate HasLink(s: State, from: Ref)
  {
    from in s.links && (from == s.links[from].left || from == s.links[from].right)
  }

  /** An indexed record across from `from` that has a key in common with it. */
  ghost predicate Similar(cfg: Config, s: State, from: Ref, r: Ref)
  {
    var seen := s.seen[from := cfg.payload];
    IsAcross(cfg, from, r) && r in seen && Identity.ShareKey(cfg.keys, seen[r], cfg.payload)
  }

  /** Is nobody similar, or more than one? */
  ghost predicate NobodySimilar(cfg: Config, s: State, from: Ref) { forall r :: !Similar(cfg, s, from, r) }

  ghost predicate SeveralSimilar(cfg: Config, s: State, from: Ref)
  {
    exists r, r' :: Similar(cfg, s, from, r) && Similar(cfg, s, from, r') && r != r'
  }

  /** `to` is the counterpart: the other end of the link, or without one the only similar record. */
  ghost predicate Finds(cfg: Config, s: State, from: Ref, to: Ref)
  {
    if HasLink(s, from) then to == if from == s.links[from].left then s.links[from].right else s.links[from].left
    else Similar(cfg, s, from, to) && forall r :: Similar(cfg, s, from, r) ==> r == to
  }

  /** The record is to be created on the other side: its counterpart is gone, or there is none and the policy is
      not to skip, or there are several and the policy is to create. */
  ghost predicate MustCreate(cfg: Config, s: State, from: Ref)
  {
    || (exists to :: Finds(cfg, s, from, to) && !InPlace(cfg, s, to))
    || (!HasLink(s, from) && !cfg.onAmbiguous.SkipIt? && NobodySimilar(cfg, s, from))
    || (!HasLink(s, from) && cfg.onAmbiguous.CreateAnyway? && SeveralSimilar(cfg, s, from))
  }

  /** Both records have one link row, the near record being its left end, and both are indexed. */
  predicate Joined(cfg: Config, s: State, from: Ref, to: Ref)
  {
    && from in s.links && to in s.links
    && s.links[from] == s.links[to] == (if from.connector == cfg.far then Identity.Link(to, from)
                                        else Identity.Link(from, to))
    && from in s.seen && to in s.seen && s.seen[from] == s.seen[to] == cfg.payload
  }

  lemma SimilarIff(cfg: Config, s: State, from: Ref, r: Ref)
    ensures r in Identity.Matches(cfg.keys, cfg.kind, Indexed(cfg, s, from).seen, Across(cfg, from), cfg.payload)
       <==> Similar(cfg, s, from, r)
  {
    Identity.MatchIff(cfg.keys, cfg.kind, Indexed(cfg, s, from).seen, Across(cfg, from), cfg.payload, r);
  }

  lemma FoundSize(cfg: Config, s: State, from: Ref, found: set<Ref>)
    requires forall r :: r in found <==> Similar(cfg, s, from, r)
    ensures |found| == 0 <==> NobodySimilar(cfg, s, from)
    ensures |found| > 1 <==> SeveralSimilar(cfg, s, from)
    ensures |found| == 1 ==> exists r :: found == {r}
  {
    if |found| == 0 {
      assert found == {};
    } else {
      var r :| r in found;
      if |found| == 1 { Identity.OnlyMember(found, r); } else { AnotherMember(found, r); }
    }
  }

  lemma AnotherMember(found: set<Ref>, r: Ref)
    requires r in found && |found| > 1
    ensures exists r' :: r' in found && r' != r
  {
    assert |found - {r}| > 0;
    var r' :| r' in found - {r};
  }

  /** What identity resolution decides, in terms of the link table and the indexed values. */
  ghost predicate DecisionMeans(cfg: Config, s: State, from: Ref, d: Identity.Resolution)
  {
    && (d.Linked? || d.Matched? ==> Finds(cfg, s, from, d.peer))
    && (forall to :: Finds(cfg, s, from, to) ==> d in {Identity.Linked(to), Identity.Matched(to)})
    && (d.Create? <==> !HasLink(s, from) && ((NobodySimilar(cfg, s, from) && !cfg.onAmbiguous.SkipIt?)
                                             || (SeveralSimilar(cfg, s, from) && cfg.onAmbiguous.CreateAnyway?)))
  }

  lemma UnlinkedMeans(cfg: Config, s: State, from: Ref, found: set<Ref>)
    requires !HasLink(s, from) && forall r :: r in found <==> Similar(cfg, s, from, r)
    ensures DecisionMeans(cfg, s, from, Identity.Decide(cfg.onAmbiguous, s.links, from, found))
  {
    FoundSize(cfg, s, from, found);
  }

  lemma DecidedMeans(cfg: Config, s: State, from: Ref)
    ensures DecisionMeans(cfg, s, from, Decided(cfg, Indexed(cfg, s, from), from))
  {
    var found := Identity.Matches(cfg.keys, cfg.kind, Indexed(cfg, s, from).seen, Across(cfg, from), cfg.payload);
    forall r: Ref ensures r in found <==> Similar(cfg, s, from, r) { SimilarIff(cfg, s, from, r); }
    if !HasLink(s, from) { UnlinkedMeans(cfg, s, from, found); }
  }

  /** A create made for `from` goes out if its key is free, links the record on file if its result is still
      remembered, and waits if its outcome was never learned; `base` is the link table it starts from. */
  ghost predicate CreateMeans(cfg: Config, s: State, from: Ref, s': State, base: map<Ref, Identity.Link>)
  {
    var key := cfg.key(from);
    if key !in s.marks || s.marks[key].expires <= s.now then
      && s'.pc == Calling(from, s.now) && s'.links == base
      && s'.marks == s.marks[key := Idem.Mark(true, "", s.now + cfg.ttl)]
      && s'.bornBack == s.bornBack + if from == cfg.source then 0 else 1
    else if s.marks[key].inFlight then
      s'.pc == s.pc && s'.links == base && s'.marks == s.marks && s'.bornBack == s.bornBack
    else
      var to := Ref(if from.connector == cfg.far then cfg.source.connector else cfg.far,
                    cfg.kind, s.marks[key].remoteID);
      && Joined(cfg, s', from, to) && s'.links - {from, to} == base - {from, to}
      && s'.pc == s.pc && s'.marks == s.marks && s'.bornBack == s.bornBack
  }

  lemma AttemptMeans(cfg: Config, s: State, from: Ref)
    ensures CreateMeans(cfg, s, from, Attempt(cfg, s, from), s.links)
  {}

  /** A counterpart that is there is linked to the record, both ways, unless both are copies; one that is gone is
      unlinked, and the record made anew. */
  ghost predicate FoundMeans(cfg: Config, s: State, from: Ref, to: Ref, s': State)
  {
    if !InPlace(cfg, s, to) then
      CreateMeans(cfg, s, from, s',
                  if from in s.links then s.links - {s.links[from].left, s.links[from].right} else s.links)
    else
      && s'.pc == s.pc && s'.marks == s.marks
      && if from == cfg.source || to == cfg.source
         then
           && Joined(cfg, s', from, to) && s'.links - {from, to} == s.links - {from, to}
           && s'.seen - {from, to} == s.seen - {from, to}
         else s'.links == s.links
  }

  /** What an event comes to, whatever it was about. */
  ghost predicate EventMeans(cfg: Config, s: State, from: Ref, s': State)
  {
    && (forall to :: Finds(cfg, s, from, to) ==> FoundMeans(cfg, s, from, to, s'))
    && ((forall to :: !Finds(cfg, s, from, to)) ==>
          if MustCreate(cfg, s, from) then CreateMeans(cfg, s, from, s', s.links)
          else s' == s.(seen := s.seen[from := cfg.payload]))
  }

  lemma MetMeans(cfg: Config, s: State, from: Ref, to: Ref)
    ensures FoundMeans(cfg, s, from, to, Met(cfg, Indexed(cfg, s, from), from, to))
  {
    var s1 := Indexed(cfg, s, from);
    if !InPlace(cfg, s, to) { AttemptMeans(cfg, Dropped(cfg, s1, from, to), from); }
  }

  lemma EventIsAnswered(cfg: Config, s: State, from: Ref)
    ensures EventMeans(cfg, s, from, AfterEvent(cfg, s, from))
  {
    DecidedMeans(cfg, s, from);
    forall to | Finds(cfg, s, from, to)
      ensures FoundMeans(cfg, s, from, to, AfterEvent(cfg, s, from))
    {
      MetMeans(cfg, s, from, to);
    }
    if forall to :: !Finds(cfg, s, from, to) {
      UnfoundMeans(cfg, s, from);
    }
  }

  /** An event sends a create if and only if the record must be created and its key is free. */
  lemma CallsIff(cfg: Config, s: State, from: Ref, s': State)
    requires s.pc.Idle? && EventMeans(cfg, s, from, s')
    ensures s'.pc.Calling? <==>
      MustCreate(cfg, s, from) && (cfg.key(from) !in s.marks || s.marks[cfg.key(from)].expires <= s.now)
  {
    if to :| Finds(cfg, s, from, to) { assert FoundMeans(cfg, s, from, to, s'); }
  }

  lemma UnfoundMeans(cfg: Config, s: State, from: Ref)
    requires forall to :: !Finds(cfg, s, from, to)
    ensures
      if MustCreate(cfg, s, from) then CreateMeans(cfg, s, from, AfterEvent(cfg, s, from), s.links)
      else AfterEvent(cfg, s, from) == Indexed(cfg, s, from)
  {
    DecidedMeans(cfg, s, from);
    AttemptMeans(cfg, Indexed(cfg, s, from), from);
  }

  // ---- the echo does not create a record back -------------------------------------------------------

  /** On the source's side only the source record holds a key of its values, and it holds one. Any number of
      other records may be indexed there. */
  ghost predicate UniqueSource(cfg: Config, s: State)
  {
    && cfg.source.kind == cfg.kind && cfg.source.connector != cfg.far
    && Identity.HeldKeys(cfg.keys, cfg.source.connector, cfg.kind, cfg.payload) != {}
    && (cfg.source in s.seen ==> s.seen[cfg.source] == cfg.payload)
    && (forall r :: r in s.seen && r.connector == cfg.source.connector && r != cfg.source ==>
          !Shares(cfg, r, s.seen[r]))
  }

  /** Every row of the link table names the record it is filed under. */
  ghost predicate RowsNamed(s: State) { forall x :: x in s.links ==> x == s.links[x].left || x == s.links[x].right }

  /** The counterpart an echo of `ref` finds: the one its link names, or else the source record if indexed. */
  function Counterpart(cfg: Config, s: State, ref: Ref): Option<Ref>
  {
    if ref in s.links then Identity.PeerOf(s.links[ref], ref)
    else if cfg.source in s.seen then Some(cfg.source)
    else None
  }

  lemma SourceAloneMatches(cfg: Config, s: State, ref: Ref)
    requires UniqueSource(cfg, s) && ref.connector == cfg.far
    ensures Identity.Matches(cfg.keys, cfg.kind, Indexed(cfg, s, ref).seen, cfg.source.connector, cfg.payload)
         == if cfg.source in s.seen then {cfg.source} else {}
  {
    var held := Identity.HeldKeys(cfg.keys, cfg.source.connector, cfg.kind, cfg.payload);
    assert held * held == held;
  }

  lemma DecidedForEcho(cfg: Config, s: State, ref: Ref)
    requires UniqueSource(cfg, s) && RowsNamed(s) && ref.connector == cfg.far
    ensures
      var d, c := Decided(cfg, Indexed(cfg, s, ref), ref), Counterpart(cfg, s, ref);
      if c.Some? then d in {Identity.Linked(c.value), Identity.Matched(c.value)}
      else d == if cfg.onAmbiguous == Identity.SkipIt then Identity.Skip else Identity.Create
  {
    SourceAloneMatches(cfg, s, ref);
  }

  /** Should an echo of `ref` send a create to the near side? Its own key must be free, and either there is no
      counterpart and the policy is not to skip, or the counterpart found is gone. */
  predicate SendsBack(cfg: Config, s: State, ref: Ref)
  {
    var c := Counterpart(cfg, s, ref);
    && Idem.Decide(s.marks, cfg.key(ref), s.now).Proceed?
    && if c.Some? then !InPlace(cfg, s, c.value) else cfg.onAmbiguous != Identity.SkipIt
  }

  /** An echo sends a create to the near side if and only if `SendsBack`, whatever the far side holds. */
  lemma EchoCreatesIff(cfg: Config, s: State, ref: Ref)
    requires UniqueSource(cfg, s) && RowsNamed(s) && ref.connector == cfg.far
    ensures AfterEvent(cfg, s, ref).bornBack == if SendsBack(cfg, s, ref) then s.bornBack + 1 else s.bornBack
  {
    DecidedForEcho(cfg, s, ref);
    RoutedCounts(cfg, Indexed(cfg, s, ref), ref, Decided(cfg, Indexed(cfg, s, ref), ref));
  }

  lemma RoutedCounts(cfg: Config, s: State, ref: Ref, d: Identity.Resolution)
    requires ref != cfg.source
    ensures Routed(cfg, s, ref, d).bornBack ==
      if (d.Create? || ((d.Linked? || d.Matched?) && !InPlace(cfg, s, d.peer)))
         && Idem.Decide(s.marks, cfg.key(ref), s.now).Proceed?
      then s.bornBack + 1 else s.bornBack
  {}

  /** What is on record about the source and its copies is about copies that exist; the rest of the index and
      of the link table is about other records and is not constrained. */
  ghost predicate Tracked(cfg: Config, s: State)
  {
    && UniqueSource(cfg, s) && RowsNamed(s) && cfg.source in s.near
    && (forall r :: r in s.seen && r.connector == cfg.far && Shares(cfg, r, s.seen[r]) ==> r in s.there)
    && (forall r :: r in s.there ==> IsFarRef(cfg, r))
    && (cfg.source in s.links ==> s.links[cfg.source].left == cfg.source && s.links[cfg.source].right in s.there)
    && (forall x :: x in s.links && x in s.there ==> s.links[x] == Identity.Link(cfg.source, x))
    && (cfg.key(cfg.source) in s.marks && !s.marks[cfg.key(cfg.source)].inFlight ==>
          Ref(cfg.far, cfg.kind, s.marks[cfg.key(cfg.source)].remoteID) in s.there)
    && (!s.pc.Idle? ==> s.pc.from == cfg.source)
    && (s.pc.Got? || s.pc.Marked? ==> s.pc.ref in s.there)
  }

  /** Whenever the far side holds a copy, or an upsert is out, the source record is indexed. */
  predicate SourceIndexed(cfg: Config, s: State)
  {
    s.there != {} || !s.pc.Idle? ==> cfg.source in s.seen
  }

  ghost predicate Kept(cfg: Config, s: State, s': State)
  {
    Tracked(cfg, s') && SourceIndexed(cfg, s') && s'.bornBack == s.bornBack
  }

  lemma PairedTracked(cfg: Config, s: State, far: Ref)
    requires Tracked(cfg, s) && far in s.there
    ensures Kept(cfg, s, Paired(cfg, s, cfg.source, far))
    ensures Paired(cfg, s, far, cfg.source) == Paired(cfg, s, cfg.source, far)
  {
    PairedEitherWay(cfg, s, far);
  }

  lemma PairedEitherWay(cfg: Config, s: State, far: Ref)
    requires far.connector == cfg.far != cfg.source.connector
    ensures Paired(cfg, s, far, cfg.source) == Paired(cfg, s, cfg.source, far)
  {
    assert s.seen[far := cfg.payload][cfg.source := cfg.payload]
      == s.seen[cfg.source := cfg.payload][far := cfg.payload];
  }

  lemma IndexedTracked(cfg: Config, s: State, r: Ref)
    requires Tracked(cfg, s) && (r == cfg.source || r in s.there)
    ensures Tracked(cfg, Indexed(cfg, s, r))
  {}

  lemma SourceEventTracked(cfg: Config, s: State)
    requires Tracked(cfg, s) && s.pc.Idle?
    ensures Kept(cfg, s, AfterEvent(cfg, s, cfg.source))
  {
    var s1 := Indexed(cfg, s, cfg.source);
    IndexedTracked(cfg, s, cfg.source);
    CounterpartExists(cfg, s1);
    RoutedTracked(cfg, s1, Decided(cfg, s1, cfg.source));
  }

  lemma CounterpartExists(cfg: Config, s: State)
    requires Tracked(cfg, s)
    ensures
      var d := Decided(cfg, s, cfg.source);
      d.Linked? || d.Matched? ==> d.peer in s.there
  {}

  lemma RoutedTracked(cfg: Config, s: State, d: Identity.Resolution)
    requires Tracked(cfg, s) && s.pc.Idle? && cfg.source in s.seen && (d.Linked? || d.Matched? ==> d.peer in s.there)
    ensures Kept(cfg, s, Routed(cfg, s, cfg.source, d))
  {
    if d.Linked? || d.Matched? {
      PairedTracked(cfg, s, d.peer);
    } else if d.Create? {
      AttemptTracked(cfg, s);
    }
  }

  lemma AttemptTracked(cfg: Config, s: State)
    requires Tracked(cfg, s) && s.pc.Idle? && cfg.source in s.seen
    ensures Kept(cfg, s, Attempt(cfg, s, cfg.source))
  {
    var d := Idem.Decide(s.marks, cfg.key(cfg.source), s.now);
    if d.Replayed? { PairedTracked(cfg, s, Ref(cfg.far, cfg.kind, d.remoteID)); }
  }

  lemma EchoTracked(cfg: Config, s: State, ref: Ref)
    requires Tracked(cfg, s) && SourceIndexed(cfg, s) && ref in s.there
    ensures Kept(cfg, s, AfterEvent(cfg, s, ref))
  {
    assert Counterpart(cfg, s, ref) == Some(cfg.source);
    DecidedForEcho(cfg, s, ref);
    IndexedTracked(cfg, s, ref);
    PairedTracked(cfg, Indexed(cfg, s, ref), ref);
  }

  lemma StepTracked(cfg: Config, s: State, step: Step)
    requires Tracked(cfg, s) && SourceIndexed(cfg, s) && Enabled(cfg, s, step) && !step.Delete?
    ensures Kept(cfg, s, Next(cfg, s, step))
  {
    if step.Event? {
      if step.suppressed {
      } else if step.from == cfg.source {
        SourceEventTracked(cfg, s);
      } else {
        EchoTracked(cfg, s, step.from);
      }
    } else if IsOthers(step) {
      OthersTracked(cfg, s, step);
    } else if step.CommitPair? {
      PairedTracked(cfg, s, s.pc.ref);
    } else if step.Poll? {
      IndexedTracked(cfg, s, step.ref);
    } else if step.Succeed? || step.Lose? || (step.Crash? && s.pc.Calling?) {
      LandingTracked(cfg, s, step);
    } else {
      AnswerTracked(cfg, s, step);
    }
  }

  predicate IsOthers(step: Step)
  {
    step.OtherIndexed? || step.OtherDeindexed? || step.OtherLinked? || step.OtherUnlinked? || step.OtherMarked?
  }

  /** What happens to other records does not disturb this one. */
  lemma OthersTracked(cfg: Config, s: State, step: Step)
    requires Tracked(cfg, s) && SourceIndexed(cfg, s) && Enabled(cfg, s, step) && IsOthers(step)
    ensures Kept(cfg, s, Next(cfg, s, step))
  {
    match step
    case OtherIndexed(ref, values) => OtherSeen(cfg, s, s.seen[ref := values]);
    case OtherDeindexed(ref) => OtherSeen(cfg, s, s.seen - {ref});
    case OtherLinked(link) => OtherLinks(cfg, s, s.links[link.left := link][link.right := link]);
    case OtherUnlinked(ref) => OtherLinks(cfg, s, s.links - {ref});
    case OtherMarked(_, _) =>
  }

  lemma OtherSeen(cfg: Config, s: State, seen: Identity.Seen)
    requires Tracked(cfg, s) && SourceIndexed(cfg, s)
    requires cfg.source in seen <==> cfg.source in s.seen
    requires forall r :: r in seen ==>
      (r in s.seen && seen[r] == s.seen[r]) || (r != cfg.source && r !in s.there && !Shares(cfg, r, seen[r]))
    ensures Kept(cfg, s, s.(seen := seen))
  {}

  lemma OtherLinks(cfg: Config, s: State, links: map<Ref, Identity.Link>)
    requires Tracked(cfg, s) && SourceIndexed(cfg, s)
    requires forall x :: x in links ==>
      || (x in s.links && links[x] == s.links[x])
      || (x != cfg.source && x !in s.there && (x == links[x].left || x == links[x].right))
    ensures Kept(cfg, s, s.(links := links))
  {}

  lemma AnswerTracked(cfg: Config, s: State, step: Step)
    requires Tracked(cfg, s) && SourceIndexed(cfg, s) && Enabled(cfg, s, step)
    requires step.Refuse? || step.CommitMark? || step.Crash? || step.Tick? || step.NearCreated?
    requires step.Crash? ==> !s.pc.Calling?
    ensures Kept(cfg, s, Next(cfg, s, step))
  {
    if step.CommitMark? {
      assert s.pc.ref == Ref(cfg.far, cfg.kind, s.pc.ref.remoteID);
    }
  }

  lemma LandingTracked(cfg: Config, s: State, step: Step)
    requires Tracked(cfg, s) && SourceIndexed(cfg, s) && Enabled(cfg, s, step)
    requires step.Succeed? || step.Lose? || (step.Crash? && s.pc.Calling?)
    ensures Kept(cfg, s, Next(cfg, s, step))
  {
    var made := if step.Succeed? then Some(step.ref) else step.arrived;
    if made.Some? { ArrivalTracked(cfg, s, made.value); }
  }

  lemma ArrivalTracked(cfg: Config, s: State, r: Ref)
    requires Tracked(cfg, s) && cfg.source in s.seen && IsNew(cfg, s, cfg.source, r)
    ensures Kept(cfg, s, WithRecord(cfg, s, r)) && r in WithRecord(cfg, s, r).there
  {}

  /** As long as nobody deletes anything, no echo ever sends a create back to the source side, whether or not
      the origin log still recognises it. */
  lemma {:induction false} EchoNeverCreatesBack(cfg: Config, s: State, steps: seq<Step>)
    requires Tracked(cfg, s) && SourceIndexed(cfg, s) && IsRun(cfg, s, steps)
    requires forall i :: 0 <= i < |steps| ==> !steps[i].Delete?
    ensures Run(cfg, s, steps).bornBack == s.bornBack
    decreases steps
  {
    if |steps| > 0 {
      StepTracked(cfg, s, steps[0]);
      EchoNeverCreatesBack(cfg, Next(cfg, s, steps[0]), steps[1..]);
    }
  }

  /** A sync that has not seen the record yet, however many others it has, starts inside every invariant above. */
  lemma FreshStart(cfg: Config, s: State, who: Ref)
    requires cfg.ttl > 0 && Distinguishes(cfg) && UniqueSource(cfg, s) && RowsNamed(s) && cfg.source in s.near
    requires s.there == {} && s.landed == [] && s.pc.Idle? && cfg.key(cfg.source) !in s.marks && cfg.source !in s.links
    requires forall r :: r in s.seen && r.connector == cfg.far ==> !Shares(cfg, r, s.seen[r])
    ensures IsParty(cfg, who) ==> Guarded(cfg, s, who)
    ensures Tracked(cfg, s) && SourceIndexed(cfg, s)
  {}

  // ---- the deletions that break it ------------------------------------------------------------------

  /** After the deletion, the next source event drops the link, and with it the source record's own
      index entry, and goes on to create. */
  lemma DeletionUnindexesSource(cfg: Config, s: State, gone: Ref)
    requires s.pc.Idle? && gone !in s.there && gone.connector == cfg.far != cfg.source.connector
    requires cfg.source in s.links && s.links[cfg.source] == Identity.Link(cfg.source, gone)
    requires Idem.Decide(s.marks, cfg.key(cfg.source), s.now).Proceed?
    ensures
      var s' := AfterEvent(cfg, s, cfg.source);
      && s'.pc == Calling(cfg.source, s.now) && s'.bornBack == s.bornBack && s'.there == s.there && s'.now == s.now
      && s'.seen == s.seen - {cfg.source, gone} && s'.links == s.links - {cfg.source, gone}
      && s'.marks == Idem.Begun(s.marks, cfg.key(cfg.source), s.now, cfg.ttl)
  {
    var t := Indexed(cfg, s, cfg.source);
    assert Identity.PeerOf(t.links[cfg.source], cfg.source) == Some(gone);
    assert AfterEvent(cfg, s, cfg.source) == Attempt(cfg, Dropped(cfg, t, cfg.source, gone), cfg.source);
    assert t.seen - {cfg.source, gone} == s.seen - {cfg.source, gone};
  }

  /** A linked copy is deleted on the far side and the source record is created again. If that create's
      response is lost, the echo of the new copy finds neither a link nor the source record, and a
      second record is created on the source side. */
  lemma DeletionLetsEchoCreateBack(cfg: Config, s: State, gone: Ref, copy: Ref)
    requires Tracked(cfg, s) && Distinguishes(cfg) && s.pc.Idle? && cfg.onAmbiguous != Identity.SkipIt
    requires gone in s.there && IsFarRef(cfg, copy) && copy !in s.links
    requires cfg.source in s.links && s.links[cfg.source] == Identity.Link(cfg.source, gone)
    requires Idem.Decide(s.marks, cfg.key(cfg.source), s.now).Proceed?
    requires Idem.Decide(s.marks, cfg.key(copy), s.now).Proceed?
    ensures
      var s1 := Next(cfg, s, Delete(gone));
      && Enabled(cfg, s1, Event(cfg.source, false))
      && var s2 := Next(cfg, s1, Event(cfg.source, false));
      && Enabled(cfg, s2, Lose(Some(copy)))
      && var s3 := Next(cfg, s2, Lose(Some(copy)));
      && Enabled(cfg, s3, Event(copy, false))
      && Next(cfg, s3, Event(copy, false)).bornBack == s.bornBack + 1
  {
    var s1 := Next(cfg, s, Delete(gone));
    DeletionUnindexesSource(cfg, s1, gone);
    var s3 := Unanswered(cfg, AfterEvent(cfg, s1, cfg.source), cfg.source, s.now, Some(copy));
    UniqueWithout(cfg, s, s3, {cfg.source, gone});
    assert cfg.key(copy) != cfg.key(cfg.source);
    EchoCreatesIff(cfg, s3, copy);
  }

  lemma UniqueWithout(cfg: Config, s: State, s': State, dropped: set<Ref>)
    requires UniqueSource(cfg, s) && RowsNamed(s) && s'.seen == s.seen - dropped && s'.links == s.links - dropped
    ensures UniqueSource(cfg, s') && RowsNamed(s')
  {}

  /** A first create, from nothing to a linked pair. */
  function Created(cfg: Config, now: int, copy: Ref): State
  {
    var link := Identity.Link(cfg.source, copy);
    Nothing(cfg, now).(
      marks := map[cfg.key(cfg.source) := Idem.Mark(false, copy.remoteID, now + cfg.ttl)],
      seen := map[cfg.source := cfg.payload, copy := cfg.payload],
      links := map[cfg.source := link, copy := link],
      there := {copy},
      landed := [Landing(cfg.source, now)])
  }

  /** Nothing is known yet but that the source record exists. */
  function Nothing(cfg: Config, now: int): State { State(now, map[], map[], map[], {}, {cfg.source}, [], 0, Idle) }

  lemma FirstEvent(cfg: Config, now: int)
    requires cfg.source.connector != cfg.far && cfg.onAmbiguous != Identity.SkipIt
    ensures AfterEvent(cfg, Nothing(cfg, now), cfg.source) == Nothing(cfg, now).(
      seen := map[cfg.source := cfg.payload],
      marks := map[cfg.key(cfg.source) := Idem.Mark(true, "", now + cfg.ttl)],
      pc := Calling(cfg.source, now))
  {
    var seen := map[cfg.source := cfg.payload];
    assert Indexed(cfg, Nothing(cfg, now), cfg.source).seen == seen;
    assert Identity.Matches(cfg.keys, cfg.kind, seen, cfg.far, cfg.payload) == {};
  }

  lemma FirstCreate(cfg: Config, now: int, copy: Ref) returns (steps: seq<Step>)
    requires cfg.source.connector != cfg.far && cfg.onAmbiguous != Identity.SkipIt && IsFarRef(cfg, copy)
    ensures IsRun(cfg, Nothing(cfg, now), steps) && Run(cfg, Nothing(cfg, now), steps) == Created(cfg, now, copy)
  {
    var s0 := Nothing(cfg, now);
    FirstEvent(cfg, now);
    steps := [];
    RunSnoc(cfg, s0, steps, Event(cfg.source, false));
    steps := steps + [Event(cfg.source, false)];
    RunSnoc(cfg, s0, steps, Succeed(copy));
    steps := steps + [Succeed(copy)];
    RunSnoc(cfg, s0, steps, CommitMark);
    steps := steps + [CommitMark];
    RunSnoc(cfg, s0, steps, CommitPair);
    steps := steps + [CommitPair];
  }

  /** And a cache lifetime later. */
  lemma CreatedAndAged(cfg: Config, now: int, copy: Ref) returns (steps: seq<Step>)
    requires cfg.source.connector != cfg.far && cfg.onAmbiguous != Identity.SkipIt && IsFarRef(cfg, copy) && cfg.ttl > 0
    ensures IsRun(cfg, Nothing(cfg, now), steps)
    ensures Run(cfg, Nothing(cfg, now), steps) == Created(cfg, now, copy).(now := now + cfg.ttl)
  {
    steps := FirstCreate(cfg, now, copy);
    RunSnoc(cfg, Nothing(cfg, now), steps, Tick(now + cfg.ttl));
    steps := steps + [Tick(now + cfg.ttl)];
  }

  /** A configuration of the kind the program builds, whose source record has a key to be matched by. */
  ghost predicate Sound(cfg: Config)
  {
    && Distinguishes(cfg) && cfg.ttl > 0 && cfg.source.connector != cfg.far && cfg.source.kind == cfg.kind
    && Identity.HeldKeys(cfg.keys, cfg.source.connector, cfg.kind, cfg.payload) != {}
  }

  lemma CreatedTracked(cfg: Config, now: int, copy: Ref, later: int)
    requires Sound(cfg) && IsFarRef(cfg, copy)
    ensures Tracked(cfg, Created(cfg, now, copy).(now := later))
  {
    assert copy == Ref(cfg.far, cfg.kind, copy.remoteID);
  }

  /** The same from an engine that knows nothing: the record is created and linked, a cache lifetime passes, the
      copy is deleted, its replacement's response is lost, and the echo brings a second source record. */
  lemma EchoCreatesBackFromNothing(cfg: Config, now: int, gone: Ref, copy: Ref) returns (steps: seq<Step>)
    requires Sound(cfg) && cfg.onAmbiguous != Identity.SkipIt
    requires IsFarRef(cfg, gone) && IsFarRef(cfg, copy) && gone != copy
    ensures IsRun(cfg, Nothing(cfg, now), steps) && Run(cfg, Nothing(cfg, now), steps).bornBack == 1
  {
    var s0 := Nothing(cfg, now);
    steps := CreatedAndAged(cfg, now, gone);
    AgedDeletion(cfg, now, gone, copy);
    RunSnoc(cfg, s0, steps, Delete(gone));
    steps := steps + [Delete(gone)];
    RunSnoc(cfg, s0, steps, Event(cfg.source, false));
    steps := steps + [Event(cfg.source, false)];
    RunSnoc(cfg, s0, steps, Lose(Some(copy)));
    steps := steps + [Lose(Some(copy))];
    RunSnoc(cfg, s0, steps, Event(copy, false));
    steps := steps + [Event(copy, false)];
  }

  lemma AgedDeletion(cfg: Config, now: int, gone: Ref, copy: Ref)
    requires Sound(cfg) && cfg.onAmbiguous != Identity.SkipIt
    requires IsFarRef(cfg, gone) && IsFarRef(cfg, copy) && gone != copy
    ensures
      var s1 := Next(cfg, Created(cfg, now, gone).(now := now + cfg.ttl), Delete(gone));
      && Enabled(cfg, s1, Event(cfg.source, false))
      && var s2 := Next(cfg, s1, Event(cfg.source, false));
      && Enabled(cfg, s2, Lose(Some(copy)))
      && var s3 := Next(cfg, s2, Lose(Some(copy)));
      && Enabled(cfg, s3, Event(copy, false))
      && Next(cfg, s3, Event(copy, false)).bornBack == 1
  {
    CreatedTracked(cfg, now, gone, now + cfg.ttl);
    assert cfg.key(copy) != cfg.key(cfg.source);
    DeletionLetsEchoCreateBack(cfg, Created(cfg, now, gone).(now := now + cfg.ttl), gone, copy);
  }

  /** The other deletion: the source record is deleted, and before that is noticed an event of its copy, which
      still is linked to it, makes it again. */
  lemma DeletedSourceIsCreatedBack(cfg: Config, now: int, copy: Ref) returns (steps: seq<Step>)
    requires Sound(cfg) && cfg.onAmbiguous != Identity.SkipIt && IsFarRef(cfg, copy)
    ensures IsRun(cfg, Nothing(cfg, now), steps) && Run(cfg, Nothing(cfg, now), steps).bornBack == 1
  {
    var s0 := Nothing(cfg, now);
    steps := FirstCreate(cfg, now, copy);
    CreatedTracked(cfg, now, copy, now);
    RunSnoc(cfg, s0, steps, Delete(cfg.source));
    steps := steps + [Delete(cfg.source)];
    var s := Created(cfg, now, copy).(near := {});
    assert Run(cfg, s0, steps) == s;
    assert cfg.key(copy) != cfg.key(cfg.source);
    EchoCreatesIff(cfg, s, copy);
    RunSnoc(cfg, s0, steps, Event(copy, false));
    steps := steps + [Event(copy, false)];
  }

  // ---- one event, start to finish -------------------------------------------------------------------

  lemma {:induction false} RunSnoc(cfg: Config, s: State, steps: seq<Step>, step: Step)
    requires IsRun(cfg, s, steps) && Enabled(cfg, Run(cfg, s, steps), step)
    ensures IsRun(cfg, s, steps + [step])
    ensures Run(cfg, s, steps + [step]) == Next(cfg, Run(cfg, s, steps), step)
    decreases steps
  {
    if |steps| > 0 {
      RunSnoc(cfg, Next(cfg, s, steps[0]), steps[1..], step);
      assert (steps + [step])[1..] == steps[1..] + [step];
    }
  }

  /** What becomes of an upsert: it lands and says so, is refused, or nobody hears. */
  datatype Answer = Landed(ref: Ref) | Refused | Lost(arrived: Option<Ref>)

  /** The engine at work on the source record and its copies, through the identity index and the replay cache.
      What it did so far is kept as a run of the machine above, so that whatever holds of every run holds of
      it. */
  class Creator {
    const cfg: Config
    const identity: Identity.Resolver
    const cache: Idem.Cache
    var now: int
    /** What the far peer and the near peer hold. */
    var there: set<Ref>
    var near: set<Ref>
    ghost var landed: seq<Landing>
    ghost var bornBack: nat
    ghost var pc: Pc
    ghost var start: State
    ghost var steps: seq<Step>

    ghost function Here(): State
      reads this, identity, cache
    {
      State(now, cache.marks, identity.seen, identity.links, there, near, landed, bornBack, pc)
    }

    ghost predicate Wired()
      reads this, identity, cache
    {
      && identity.Valid() && cache.ttl == cfg.ttl > 0
      && identity.keys == cfg.keys && identity.kind == cfg.kind && identity.onAmbiguous == cfg.onAmbiguous
    }

    ghost predicate Valid()
      reads this, identity, cache
    {
      Wired() && IsRun(cfg, start, steps) && Run(cfg, start, steps) == Here()
    }

    constructor (cfg: Config, identity: Identity.Resolver, cache: Idem.Cache, now: int, there: set<Ref>, near: set<Ref>)
      requires identity.Valid() && cache.ttl == cfg.ttl > 0
      requires identity.keys == cfg.keys && identity.kind == cfg.kind && identity.onAmbiguous == cfg.onAmbiguous
      ensures Valid() && this.cfg == cfg && this.identity == identity && this.cache == cache
      ensures Here() == State(now, cache.marks, identity.seen, identity.links, there, near, [], 0, Idle)
    {
      this.cfg, this.identity, this.cache, this.now, this.there, this.near := cfg, identity, cache, now, there, near;
      landed, bornBack, pc := [], 0, Idle;
      start, steps := State(now, cache.marks, identity.seen, identity.links, there, near, [], 0, Idle), [];
    }

    /** The ghost half of a step: everything else has been brought to what the machine says. */
    ghost method Follow(before: State, step: Step)
      requires Wired() && IsRun(cfg, start, steps) && Run(cfg, start, steps) == before && Enabled(cfg, before, step)
      requires
        var next := Next(cfg, before, step);
        next == Here().(landed := next.landed, bornBack := next.bornBack, pc := next.pc)
      modifies this`landed, this`bornBack, this`pc, this`steps
      ensures Valid() && Here() == Next(cfg, before, step) && steps == old(steps) + [step]
    {
      var next := Next(cfg, before, step);
      RunSnoc(cfg, start, steps, step);
      steps := steps + [step];
      landed, bornBack, pc := next.landed, next.bornBack, next.pc;
    }

    method CommitPair(from: Ref, to: Ref)
      requires Wired()
      modifies identity
      ensures Wired()
      ensures Here() == Paired(cfg, old(Here()), from, to)
    {
      identity.PutLink(LinkOf(cfg, from, to));
      identity.Index(from, cfg.payload);
      identity.Index(to, cfg.payload);
    }

    method DropLink(from: Ref, to: Ref)
      requires Wired()
      modifies identity
      ensures Wired()
      ensures Here() == Dropped(cfg, old(Here()), from, to)
    {
      if from in identity.links {
        identity.DeleteLink(identity.links[from]);
      }
      identity.Deindex(from);
      identity.Deindex(to);
      assert old(identity.seen) - {from} - {to} == old(identity.seen) - {from, to};
    }

    /** Handles a change of the source record or of a copy, as far as sending the upsert if its counterpart is
        missing. */
    method Process(from: Ref) returns (calling: bool)
      requires Valid() && pc.Idle? && IsParty(cfg, from) && (from != cfg.source ==> from in there)
      modifies this, identity, cache
      ensures Valid() && start == old(start) && steps == old(steps) + [Event(from, false)]
      ensures there == old(there) && near == old(near)
      ensures pc == if calling then Calling(from, now) else Idle
      ensures EventMeans(cfg, old(Here()), from, Here())
      ensures calling <==>
        && MustCreate(cfg, old(Here()), from)
        && (cfg.key(from) !in old(cache.marks) || old(cache.marks)[cfg.key(from)].expires <= now)
    {
      ghost var before := Here();
      calling := Route(from);
      Follow(before, Event(from, false));
      EventIsAnswered(cfg, before, from);
      CallsIff(cfg, before, from, Here());
    }

    /** The state with an upsert for `from` out, when one is. */
    ghost function Out(from: Ref, calling: bool): State
      reads this, identity, cache
    {
      if !calling then Here()
      else Here().(pc := Calling(from, now), bornBack := if from == cfg.source then bornBack else bornBack + 1)
    }

    /** Indexes the record and finds its counterpart. */
    method Route(from: Ref) returns (calling: bool)
      requires Wired() && pc.Idle?
      modifies identity, cache
      ensures Wired()
      ensures AfterEvent(cfg, old(Here()), from) == Out(from, calling)
    {
      identity.Index(from, cfg.payload);
      var res := identity.Resolve(from, Across(cfg, from), cfg.payload);
      calling := Pursue(from, res);
    }

    /** Creates, or goes on to the counterpart; one that turns out to be gone is unlinked first. */
    method Pursue(from: Ref, res: Identity.Resolution) returns (calling: bool)
      requires Wired() && pc.Idle?
      modifies identity, cache
      ensures Wired()
      ensures Routed(cfg, old(Here()), from, res) == Out(from, calling)
    {
      calling := false;
      if res.Create? {
        calling := Begin(from);
      } else if res.Linked? || res.Matched? {
        var present := if res.peer.connector == cfg.far then res.peer in there else res.peer in near;
        if !present {
          DropLink(from, res.peer);
          calling := Begin(from);
        } else if from == cfg.source || res.peer == cfg.source {
          CommitPair(from, res.peer);
        }
      }
    }

    /** Asks the cache: a result on record is linked without a call, an open intent waits. */
    method Begin(from: Ref) returns (calling: bool)
      requires Wired() && pc.Idle?
      modifies identity, cache
      ensures Wired()
      ensures Attempt(cfg, old(Here()), from) == Out(from, calling)
    {
      var d := cache.Begin(cfg.key(from), now);
      if d.Replayed? { CommitPair(from, Ref(Across(cfg, from), cfg.kind, d.remoteID)); }
      calling := d.Proceed?;
    }

    /** The upsert's answer, and the bookkeeping after a success. */
    method Settle(from: Ref, answer: Answer)
      requires Valid() && pc.Calling? && pc.from == from
      requires answer.Landed? ==> IsNew(cfg, Here(), from, answer.ref)
      requires answer.Lost? && answer.arrived.Some? ==> IsNew(cfg, Here(), from, answer.arrived.value)
      modifies this, identity, cache
      ensures Valid() && start == old(start) && old(steps) <= steps && pc.Idle?
      ensures answer.Landed? ==>
        && Idem.Decide(cache.marks, cfg.key(from), now) == Idem.Replayed(answer.ref.remoteID)
        && cache.marks == old(cache.marks)[cfg.key(from) := Idem.Mark(false, answer.ref.remoteID, now + cfg.ttl)]
        && Joined(cfg, Here(), from, answer.ref) && InPlace(cfg, Here(), answer.ref)
      ensures answer.Refused? ==> cfg.key(from) !in cache.marks && identity.links == old(identity.links)
      ensures answer.Lost? ==> cache.marks == old(cache.marks) && identity.links == old(identity.links)
    {
      ghost var before := Here();
      match answer
      case Refused =>
        cache.Abandon(cfg.key(from));
        Follow(before, Refuse);
      case Lost(arrived) =>
        if arrived.Some? { Appear(arrived.value); }
        Follow(before, Lose(arrived));
      case Landed(ref) => Accept(from, ref);
    }

    /** The upsert landed and said so. */
    method Accept(from: Ref, ref: Ref)
      requires Valid() && pc.Calling? && pc.from == from && IsNew(cfg, Here(), from, ref)
      modifies this, identity, cache
      ensures Valid() && start == old(start) && old(steps) <= steps && pc.Idle? && now == old(now)
      ensures Joined(cfg, Here(), from, ref) && InPlace(cfg, Here(), ref)
      ensures cache.marks == old(cache.marks)[cfg.key(from) := Idem.Mark(false, ref.remoteID, now + cfg.ttl)]
    {
      ghost var before := Here();
      Appear(ref);
      Follow(before, Succeed(ref));
      Record(from, ref);
    }

    /** The peer now holds the record. */
    method Appear(r: Ref)
      modifies this`there, this`near
      ensures Here() == WithRecord(cfg, old(Here()), r)
    {
      if r.connector == cfg.far { there := there + {r}; } else { near := near + {r}; }
    }

    method Record(from: Ref, ref: Ref)
      requires Valid() && pc.Got? && pc.from == from && pc.ref == ref
      modifies this, identity, cache
      ensures Valid() && start == old(start) && old(steps) <= steps && pc.Idle?
      ensures now == old(now)
      ensures Joined(cfg, Here(), from, ref) && there == old(there) && near == old(near)
      ensures cache.marks == old(cache.marks)[cfg.key(from) := Idem.Mark(false, ref.remoteID, now + cfg.ttl)]
    {
      ghost var before := Here();
      cache.Commit(cfg.key(from), ref.remoteID, now);
      Follow(before, CommitMark);
      Join(from, ref);
    }

    /** The result is on record; now the pair. */
    method Join(from: Ref, ref: Ref)
      requires Valid() && pc == Marked(from, ref)
      modifies this, identity, cache
      ensures Valid() && start == old(start) && old(steps) <= steps && pc.Idle? && now == old(now)
      ensures Joined(cfg, Here(), from, ref) && there == old(there) && near == old(near)
      ensures cache.marks == old(cache.marks)
    {
      ghost var before := Here();
      CommitPair(from, ref);
      Follow(before, Step.CommitPair);
    }
  }
}
