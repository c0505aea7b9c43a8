/** Delta reads and the high-water mark (internal/watermark/watermark.go and
    internal/engine/poll.go). Instants and durations are in seconds; zero is Go's zero time. */
module Watermark {
  import opened Wrappers

  const ZERO: int := 0
  const DEFAULT_OVERLAP: int := 120
  const COARSE_OVERLAP: int := 300
  const MAX_PAGES: nat := 10000

  // ---- the tracker -----------------------------------------------------------------

  datatype PeerConfig = PeerConfig(overlap: int, exactTimestamps: bool)

  function Overlap(cfg: PeerConfig): (r: int)
    ensures r > 0
    ensures cfg.overlap > 0 ==> r >= cfg.overlap
    ensures !cfg.exactTimestamps ==> r >= COARSE_OVERLAP
    ensures r in {cfg.overlap, DEFAULT_OVERLAP, COARSE_OVERLAP}
    ensures cfg.exactTimestamps ==> r == if cfg.overlap > 0 then cfg.overlap else 120
    ensures !cfg.exactTimestamps ==> r == if cfg.overlap > 300 then cfg.overlap else 300
  {
    var overlap := if cfg.overlap <= 0 then DEFAULT_OVERLAP else cfg.overlap;
    if !cfg.exactTimestamps && overlap < COARSE_OVERLAP then COARSE_OVERLAP else overlap
  }

  /** The mark after a page whose largest stamp is `highest` has landed. */
  function Advanced(mark: Option<int>, highest: int, now: int): (r: Option<int>)
    ensures mark.Some? ==> r.Some? && r.value >= mark.value
    ensures r != mark ==> highest != ZERO && r.Some? && r.value <= highest && r.value <= now
    ensures highest != ZERO ==> r.Some? && (r.value >= highest || r.value >= now)
  {
    if highest == ZERO then mark
    else
      var h := if highest > now then now else highest;
      if mark.Some? && h <= mark.value then mark else Some(h)
  }

  /** The largest stamp of a page, stamps a peer left out not counting. */
  ghost predicate IsHighest(stamps: set<int>, h: int)
  {
    if h == ZERO then stamps <= {ZERO} else h in stamps && forall t :: t in stamps && t != ZERO ==> t <= h
  }

  function Elements(times: seq<int>): set<int> { set t | t in times }

  method Highest(times: seq<int>) returns (out: int)
    ensures IsHighest(Elements(times), out)
    ensures out != ZERO ==> out in times
    ensures forall t :: t in times ==> t == ZERO || (out != ZERO && t <= out)
  {
    out := ZERO;
    for i := 0 to |times|
      invariant IsHighest(Elements(times[..i]), out)
    {
      assert times[..i + 1] == times[..i] + [times[i]];
      assert Elements(times[..i + 1]) == Elements(times[..i]) + {times[i]};
      if times[i] != ZERO && (out == ZERO || times[i] > out) {
        out := times[i];
      }
    }
    assert times[..|times|] == times;
    assert forall t :: t in times ==> t in Elements(times);
  }

  class Tracker {
    const peers: map<string, PeerConfig>
    var marks: map<(string, string), int>

    constructor (peers: map<string, PeerConfig>)
      ensures this.peers == peers && marks == map[]
    {
      this.peers := peers;
      marks := map[];
    }

    function OverlapOf(connector: string): int
    {
      Overlap(if connector in peers then peers[connector] else PeerConfig(0, false))
    }

    ghost function Mark(connector: string, kind: string): Option<int>
      reads this
    {
      if (connector, kind) in marks then Some(marks[(connector, kind)]) else None
    }

    /** Where the next read starts: at the mark less the overlap configured for the peer, at least five minutes
        where its timestamps are coarse, as those of an unknown peer are taken to be. */
    method Since(connector: string, kind: string) returns (since: Option<int>)
      ensures since.None? <==> (connector, kind) !in marks
      ensures since.Some? ==> since.value == marks[(connector, kind)] - OverlapOf(connector)
      ensures since.Some? && connector !in peers ==> since.value == marks[(connector, kind)] - 300
      ensures since.Some? && connector in peers && peers[connector].overlap > 0 && peers[connector].exactTimestamps ==>
        since.value == marks[(connector, kind)] - peers[connector].overlap
      ensures since.Some? && connector in peers && peers[connector].overlap > 300 ==>
        since.value == marks[(connector, kind)] - peers[connector].overlap
      ensures since.Some? && connector in peers && !peers[connector].exactTimestamps ==>
        since.value <= marks[(connector, kind)] - 300
    {
      if (connector, kind) !in marks { return None; }
      since := Some(marks[(connector, kind)] - OverlapOf(connector));
    }

    method Advance(connector: string, kind: string, highest: int, now: int)
      modifies this`marks
      ensures Mark(connector, kind) == Advanced(old(Mark(connector, kind)), highest, now)
      ensures highest == ZERO ==> marks == old(marks)
      ensures highest != ZERO ==>
        && (connector, kind) in marks
        && marks[(connector, kind)] >= (if highest < now then highest else now)
        && ((connector, kind) in old(marks) ==> marks[(connector, kind)] >= old(marks)[(connector, kind)])
        && (marks[(connector, kind)] == (if highest < now then highest else now)
            || ((connector, kind) in old(marks) && marks[(connector, kind)] == old(marks)[(connector, kind)]))
      ensures forall p :: p != (connector, kind) ==> (p in marks <==> p in old(marks))
      ensures forall p :: p != (connector, kind) && p in marks ==> marks[p] == old(marks)[p]
    {
      if highest == ZERO { return; }
      var h := highest;
      if h > now { h := now; }
      if (connector, kind) in marks && h <= marks[(connector, kind)] { return; }
      marks := marks[(connector, kind) := h];
    }

    method Reset(connector: string, kind: string)
      modifies this`marks
      ensures marks == old(marks) - {(connector, kind)}
    {
      marks := marks - {(connector, kind)};
    }
  }

  // ---- paging -------------------------------------------------------------------------

  datatype Record = Record(id: string, stamp: int)

  datatype Page = Page(records: seq<Record>, deleted: seq<string>, more: bool)

  datatype Change = Changed(record: Record) | Deleted(id: string)

  datatype PollError = FetchFailed | PagingDidNotTerminate

  function PageEvents(p: Page): seq<Change>
  {
    seq(|p.records|, i requires 0 <= i < |p.records| => Changed(p.records[i]))
    + seq(|p.deleted|, i requires 0 <= i < |p.deleted| => Deleted(p.deleted[i]))
  }

  /** The first `n` pages arrived, each announcing another one. */
  ghost predicate Continues(fetch: nat -> Option<Page>, n: nat)
  {
    forall i: nat :: i < n ==> fetch(i).Some? && fetch(i).value.more
  }

  ghost predicate EndsAt(fetch: nat -> Option<Page>, n: nat)
  {
    Continues(fetch, n) && fetch(n).Some? && !fetch(n).value.more
  }

  ghost predicate Arrived(fetch: nat -> Option<Page>, n: nat) { forall i: nat :: i < n ==> fetch(i).Some? }

  ghost function EventsOf(fetch: nat -> Option<Page>, n: nat): seq<Change>
    requires Arrived(fetch, n)
  {
    if n == 0 then [] else EventsOf(fetch, n - 1) + PageEvents(fetch(n - 1).value)
  }

  /** How many changes the first `n` pages report, deletions included. */
  ghost function Reported(fetch: nat -> Option<Page>, n: nat): nat
    requires Arrived(fetch, n)
  {
    if n == 0 then 0
    else Reported(fetch, n - 1) + |fetch(n - 1).value.records| + |fetch(n - 1).value.deleted|
  }

  /** From position `at` on the events are those of the page: its records in order, then its deletions. */
  ghost predicate HoldsPage(events: seq<Change>, at: nat, p: Page)
  {
    && at + |p.records| + |p.deleted| <= |events|
    && (forall j :: 0 <= j < |p.records| ==> events[at + j] == Changed(p.records[j]))
    && (forall j :: 0 <= j < |p.deleted| ==> events[at + |p.records| + j] == Deleted(p.deleted[j]))
  }

  ghost predicate HoldsPages(fetch: nat -> Option<Page>, n: nat, events: seq<Change>)
    requires Arrived(fetch, n)
  {
    && |events| == Reported(fetch, n)
    && forall i: nat :: i < n ==> HoldsPage(events, Reported(fetch, i), fetch(i).value)
  }

  lemma {:induction false} AsManyAsReported(fetch: nat -> Option<Page>, n: nat)
    requires Arrived(fetch, n)
    ensures |EventsOf(fetch, n)| == Reported(fetch, n)
  {
    if n > 0 {
      AsManyAsReported(fetch, n - 1);
      assert |PageEvents(fetch(n - 1).value)| == |fetch(n - 1).value.records| + |fetch(n - 1).value.deleted|;
    }
  }

  lemma {:induction false} PageInOrder(fetch: nat -> Option<Page>, n: nat, i: nat)
    requires Arrived(fetch, n) && i < n
    ensures HoldsPage(EventsOf(fetch, n), Reported(fetch, i), fetch(i).value)
    decreases n
  {
    var before, last := EventsOf(fetch, n - 1), fetch(n - 1).value;
    AsManyAsReported(fetch, n - 1);
    if i < n - 1 {
      PageInOrder(fetch, n - 1, i);
      StillHolds(before, PageEvents(last), Reported(fetch, i), fetch(i).value);
    } else {
      NowHolds(before, last);
    }
  }

  lemma StillHolds(events: seq<Change>, more: seq<Change>, at: nat, p: Page)
    requires HoldsPage(events, at, p)
    ensures HoldsPage(events + more, at, p)
  {}

  lemma NowHolds(events: seq<Change>, p: Page)
    ensures HoldsPage(events + PageEvents(p), |events|, p)
  {
    assert forall k :: 0 <= k < |PageEvents(p)| ==> (events + PageEvents(p))[|events| + k] == PageEvents(p)[k];
  }

  /** What the first `n` pages list, in whatever order. */
  ghost predicate Listed(fetch: nat -> Option<Page>, n: nat, c: Change)
    requires Arrived(fetch, n)
  {
    match c
    case Changed(record) => exists i: nat :: i < n && record in fetch(i).value.records
    case Deleted(id) => exists i: nat :: i < n && id in fetch(i).value.deleted
  }

  /** No change is dropped and none is made up. */
  lemma {:induction false} NoneIsDropped(fetch: nat -> Option<Page>, n: nat, c: Change)
    requires Arrived(fetch, n)
    ensures c in EventsOf(fetch, n) <==> Listed(fetch, n, c)
  {
    if n > 0 {
      var last := fetch(n - 1).value;
      NoneIsDropped(fetch, n - 1, c);
      PageMembers(last, c);
      assert c in EventsOf(fetch, n) <==> c in EventsOf(fetch, n - 1) || c in PageEvents(last);
    }
  }

  lemma PageMembers(p: Page, c: Change)
    ensures c in PageEvents(p) <==> if c.Changed? then c.record in p.records else c.id in p.deleted
  {
    var pe := PageEvents(p);
    if c.Changed? && c.record in p.records {
      var i :| 0 <= i < |p.records| && p.records[i] == c.record;
      assert pe[i] == c;
    }
    if c.Deleted? && c.id in p.deleted {
      var i :| 0 <= i < |p.deleted| && p.deleted[i] == c.id;
      assert pe[|p.records| + i] == c;
    }
  }

  lemma CannotEnd(fetch: nat -> Option<Page>, n: nat)
    requires Continues(fetch, n) && (fetch(n).None? || (n > MAX_PAGES && fetch(n).value.more))
    ensures NeverEnds(fetch)
  {}

  /** No page within the page bound is the last. */
  ghost predicate NeverEnds(fetch: nat -> Option<Page>)
  {
    forall n: nat :: n <= MAX_PAGES + 1 ==> !EndsAt(fetch, n)
  }

  function StampsIn(events: seq<Change>): set<int>
  {
    set e | e in events && e.Changed? :: e.record.stamp
  }

  /** `events` and `highest` are what the first `n` pages amount to. */
  ghost predicate Gathered(fetch: nat -> Option<Page>, n: nat, events: seq<Change>, highest: int)
  {
    Continues(fetch, n) && Arrived(fetch, n) && events == EventsOf(fetch, n) && IsHighest(StampsIn(events), highest)
  }

  lemma StampsHighest(events: seq<Change>, highest: int)
    requires IsHighest(StampsIn(events), highest)
    ensures highest != 0 ==> exists record :: Changed(record) in events && record.stamp == highest
    ensures forall record :: Changed(record) in events ==>
      record.stamp == 0 || (highest != 0 && record.stamp <= highest)
  {
    if highest != 0 {
      var e :| e in events && e.Changed? && e.record.stamp == highest;
      assert e == Changed(e.record);
    }
    forall record | Changed(record) in events
      ensures record.stamp == 0 || (highest != 0 && record.stamp <= highest)
    {
      assert Changed(record).record.stamp in StampsIn(events);
    }
  }

  /** One poll's result: the changes of the first `n` pages, in page order, no other and none missing, and the
      largest stamp among their records, stamps a peer left out not counting. */
  ghost predicate ReadsAll(fetch: nat -> Option<Page>, n: nat, events: seq<Change>, highest: int)
    requires Arrived(fetch, n)
  {
    && HoldsPages(fetch, n, events)
    && (forall c :: c in events <==> Listed(fetch, n, c))
    && (highest != 0 ==> exists record :: Changed(record) in events && record.stamp == highest)
    && (forall record :: Changed(record) in events ==> record.stamp == 0 || (highest != 0 && record.stamp <= highest))
  }

  lemma OneMorePage(fetch: nat -> Option<Page>, n: nat)
    requires Continues(fetch, n) && fetch(n).Some?
    ensures Arrived(fetch, n + 1)
    ensures EventsOf(fetch, n + 1) == EventsOf(fetch, n) + PageEvents(fetch(n).value)
  {}

  lemma AllRead(fetch: nat -> Option<Page>, n: nat, events: seq<Change>, highest: int)
    requires Arrived(fetch, n) && events == EventsOf(fetch, n) && IsHighest(StampsIn(events), highest)
    ensures ReadsAll(fetch, n, events, highest)
  {
    AsManyAsReported(fetch, n);
    forall i: nat | i < n ensures HoldsPage(events, Reported(fetch, i), fetch(i).value) { PageInOrder(fetch, n, i); }
    forall c: Change ensures c in events <==> Listed(fetch, n, c) { NoneIsDropped(fetch, n, c); }
    StampsHighest(events, highest);
  }

  /** Reads every page of one poll, or fails and returns nothing. A cursor that never ends is
      given up after the page bound. */
  method ReadPages(fetch: nat -> Option<Page>)
    returns (r: Result<(seq<Change>, int), PollError>, ghost pages: nat)
    ensures r.Ok? ==> EndsAt(fetch, pages) && pages <= MAX_PAGES + 1
    ensures r.Ok? ==> ReadsAll(fetch, pages + 1, r.value.0, r.value.1)
    ensures r.Err? ==> NeverEnds(fetch)
    ensures r == Err(FetchFailed) ==> Continues(fetch, pages) && fetch(pages).None?
    ensures r == Err(PagingDidNotTerminate) ==> pages == 10001 && Continues(fetch, pages + 1)
  {
    var events: seq<Change>, highest, n := [], ZERO, 0;
    while n <= MAX_PAGES && fetch(n).Some? && fetch(n).value.more
      invariant n <= MAX_PAGES + 1
      invariant Gathered(fetch, n, events, highest)
    {
      highest := PageHighest(events, highest, fetch(n).value);
      events := events + PageEvents(fetch(n).value);
      n := n + 1;
    }
    pages := n;
    r := LastPage(fetch, n, events, highest);
  }

  /** The page the loop ended with: missing, one too many, or the last. */
  method LastPage(fetch: nat -> Option<Page>, n: nat, events: seq<Change>, highest: int)
    returns (r: Result<(seq<Change>, int), PollError>)
    requires Gathered(fetch, n, events, highest) && n <= MAX_PAGES + 1
    requires fetch(n).Some? && fetch(n).value.more ==> n > MAX_PAGES
    ensures r.Ok? ==> EndsAt(fetch, n) && ReadsAll(fetch, n + 1, r.value.0, r.value.1)
    ensures r.Err? ==> NeverEnds(fetch)
    ensures r == Err(FetchFailed) ==> fetch(n).None?
    ensures r == Err(PagingDidNotTerminate) ==> n == 10001 && Continues(fetch, n + 1)
  {
    var page := fetch(n);
    if page.None? {
      CannotEnd(fetch, n);
      return Err(FetchFailed);
    }
    if page.value.more {
      CannotEnd(fetch, n);
      return Err(PagingDidNotTerminate);
    }
    var top := PageHighest(events, highest, page.value);
    r := Ok((events + PageEvents(page.value), top));
    OneMorePage(fetch, n);
    AllRead(fetch, n + 1, r.value.0, top);
  }

  method PageHighest(ghost events: seq<Change>, start: int, page: Page) returns (highest: int)
    requires IsHighest(StampsIn(events), start)
    ensures IsHighest(StampsIn(events + PageEvents(page)), highest)
  {
    highest := start;
    ghost var seen := StampsIn(events);
    for i := 0 to |page.records|
      invariant seen == StampsIn(events) + (set k | 0 <= k < i :: page.records[k].stamp)
      invariant IsHighest(seen, highest)
    {
      var t := page.records[i].stamp;
      seen := seen + {t};
      if t != ZERO && (highest == ZERO || t > highest) {
        highest := t;
      }
    }
    StampsOfPage(events, page);
  }

  lemma StampsOfPage(events: seq<Change>, page: Page)
    ensures StampsIn(events + PageEvents(page))
         == StampsIn(events) + (set k | 0 <= k < |page.records| :: page.records[k].stamp)
  {
    var pe := PageEvents(page);
    forall k | 0 <= k < |page.records|
      ensures page.records[k].stamp in StampsIn(events + pe)
    {
      assert pe[k] == Changed(page.records[k]);
      assert Changed(page.records[k]) in events + pe;
    }
    forall t | t in StampsIn(events + pe)
      ensures t in StampsIn(events) + (set k | 0 <= k < |page.records| :: page.records[k].stamp)
    {
      var e :| e in events + pe && e.Changed? && e.record.stamp == t;
      if e !in events {
        var k :| 0 <= k < |pe| && pe[k] == e;
        assert k < |page.records| && page.records[k].stamp == t;
      }
    }
  }

  // ---- the protocol: one peer and kind, under every interleaving ------------------------

  datatype Version = Version(id: string, rev: nat, stamp: int)

  /** A poll holds what it read and, once submitted, the handles of its tasks. */
  datatype Poll = Poll(events: set<Version>, highest: int, handles: Option<set<nat>>)

  /** `handled` (written or dead-lettered) and `mark` survive a crash; polls, tasks and
      released handles do not. `top` is the highest stamp the peer ever showed. */
  datatype State = State(
    peer: map<string, Version>,
    nextRev: nat,
    top: Option<int>,
    handled: set<Version>,
    mark: Option<int>,
    now: int,
    polls: map<nat, Poll>,
    tasks: map<nat, Version>,
    released: set<nat>,
    stopped: bool)

  datatype Step =
    | Edit(id: string, stamp: int)
    | Remove(id: string)
    | Tick(to: int)
    | Read(poll: nat, highest: int)
    | Submit(poll: nat, added: map<nat, Version>)
    | Webhook(task: nat, id: string)
    | Retry(task: nat)
    | Finish(task: nat)
    | Commit(poll: nat)
    | Crash
    | Stop

  const Initial := State(map[], 0, None, {}, None, 0, map[], map[], {}, false)

  /** What a poll reads: everything at or after the mark less the overlap, or everything. */
  function ReadSet(overlap: int, s: State): set<Version>
  {
    set id | id in s.peer && (s.mark.None? || s.peer[id].stamp >= s.mark.value - overlap) :: s.peer[id]
  }

  function Stamps(vs: set<Version>): set<int> { set v | v in vs :: v.stamp }

  ghost predicate Enabled(overlap: int, s: State, step: Step)
  {
    match step
    case Edit(_, stamp) => s.top.Some? ==> stamp >= s.top.value - overlap
    case Remove(id) => id in s.peer
    case Tick(to) => to >= s.now
    case Read(p, h) => p !in s.polls && IsHighest(Stamps(ReadSet(overlap, s)), h)
    case Submit(p, added) =>
      && p in s.polls && s.polls[p].handles.None?
      && added.Keys !! s.tasks.Keys && added.Values == s.polls[p].events
    case Webhook(t, id) => t !in s.tasks && id in s.peer
    case Retry(t) => t in s.tasks && t !in s.released
    case Finish(t) => t in s.tasks && t !in s.released
    case Commit(p) => p in s.polls && s.polls[p].handles.Some? && s.polls[p].handles.value <= s.released
    case Crash => true
    case Stop => true
  }

  function Next(overlap: int, s: State, step: Step): State
    requires step.Submit? || step.Commit? ==> step.poll in s.polls
    requires step.Webhook? ==> step.id in s.peer
    requires step.Finish? ==> step.task in s.tasks
  {
    match step
    case Edit(id, stamp) =>
      s.(peer := s.peer[id := Version(id, s.nextRev, stamp)],
         nextRev := s.nextRev + 1,
         top := if s.top.Some? && s.top.value >= stamp then s.top else Some(stamp))
    case Remove(id) => s.(peer := s.peer - {id})
    case Tick(to) => s.(now := to)
    case Read(p, h) => s.(polls := s.polls[p := Poll(ReadSet(overlap, s), h, None)])
    case Submit(p, added) =>
      s.(polls := s.polls[p := s.polls[p].(handles := Some(added.Keys))], tasks := s.tasks + added,
         released := Released(s, added.Keys))
    case Webhook(t, id) => s.(tasks := s.tasks[t := s.peer[id]], released := Released(s, {t}))
    case Retry(_) => s
    case Finish(t) => s.(handled := s.handled + {s.tasks[t]}, released := s.released + {t})
    case Commit(p) => s.(mark := Advanced(s.mark, s.polls[p].highest, s.now), polls := s.polls - {p})
    case Crash => s.(polls := map[], tasks := map[], released := {}, stopped := false)
    case Stop => s.(released := s.tasks.Keys, stopped := true)
  }

  /** A stopped engine's queue is closed: it accepts no task and releases its handle at once. */
  function Released(s: State, tasks: set<nat>): set<nat> { if s.stopped then s.released + tasks else s.released }

  /** The only restriction on shutdown: a stopped engine commits no poll before it restarts. */
  predicate Orderly(s: State, step: Step) { step.Commit? ==> !s.stopped }

  ghost predicate IsRun(overlap: int, s: State, steps: seq<Step>)
    decreases steps
  {
    |steps| > 0 ==>
      && Enabled(overlap, s, steps[0])
      && Orderly(s, steps[0])
      && IsRun(overlap, Next(overlap, s, steps[0]), steps[1..])
  }

  ghost function Run(overlap: int, s: State, steps: seq<Step>): State
    requires IsRun(overlap, s, steps)
    decreases steps
  {
    if |steps| == 0 then s else Run(overlap, Next(overlap, s, steps[0]), steps[1..])
  }

  // ---- safety ------------------------------------------------------------------------------

  /** Nothing current and unhandled lies below the point the next read starts from. */
  ghost predicate NothingSkipped(overlap: int, s: State)
  {
    s.mark.Some? ==>
      forall id :: id in s.peer && s.peer[id] !in s.handled ==> s.peer[id].stamp >= s.mark.value - overlap
  }

  /** A poll either read a pending version or may commit without stepping over it. */
  ghost predicate PollSafe(overlap: int, s: State, p: Poll)
  {
    p.highest != ZERO ==>
      forall id :: id in s.peer && s.peer[id] !in s.handled && s.peer[id] !in p.events ==>
        s.peer[id].stamp >= p.highest - overlap
  }

  ghost predicate TasksCover(s: State, p: Poll)
  {
    p.handles.Some? ==> forall v :: v in p.events ==>
      exists t :: t in p.handles.value && t in s.tasks && s.tasks[t] == v
  }

  ghost predicate BelowTop(s: State)
  {
    && (s.mark.Some? ==> s.top.Some? && s.mark.value <= s.top.value)
    && (forall id :: id in s.peer ==> s.top.Some? && s.peer[id].stamp <= s.top.value)
    && (forall p :: p in s.polls && s.polls[p].highest != ZERO ==> s.top.Some? && s.polls[p].highest <= s.top.value)
  }

  ghost predicate Inv(overlap: int, s: State)
  {
    && NothingSkipped(overlap, s)
    && BelowTop(s)
    && (forall p :: p in s.polls ==> PollSafe(overlap, s, s.polls[p]))
    && (forall p :: p in s.polls ==> TasksCover(s, s.polls[p]))
    && (!s.stopped ==> forall t :: t in s.released && t in s.tasks ==> s.tasks[t] in s.handled)
  }

  lemma ReadStep(overlap: int, s: State, step: Step)
    requires Inv(overlap, s) && step.Read? && Enabled(overlap, s, step)
    ensures Inv(overlap, Next(overlap, s, step))
  {}

  lemma SubmitStep(overlap: int, s: State, step: Step)
    requires Inv(overlap, s) && step.Submit? && Enabled(overlap, s, step)
    requires forall t :: t in s.released ==> t in s.tasks
    ensures Inv(overlap, Next(overlap, s, step))
  {}

  /** Every task of the poll is over, so whatever it read is handled and whatever it did not
      read lies inside the overlap. */
  lemma CommitStep(overlap: int, s: State, step: Step)
    requires Inv(overlap, s) && step.Commit? && Enabled(overlap, s, step) && !s.stopped
    ensures Inv(overlap, Next(overlap, s, step))
  {}

  lemma EditStep(overlap: int, s: State, step: Step)
    requires Inv(overlap, s) && step.Edit? && Enabled(overlap, s, step)
    ensures Inv(overlap, Next(overlap, s, step))
  {}

  lemma OtherStep(overlap: int, s: State, step: Step)
    requires Inv(overlap, s) && Enabled(overlap, s, step)
    requires forall t :: t in s.released ==> t in s.tasks
    requires step.Remove? || step.Tick? || step.Webhook? || step.Retry? || step.Finish? || step.Crash? || step.Stop?
    ensures Inv(overlap, Next(overlap, s, step))
  {}

  ghost predicate FullInv(overlap: int, s: State)
  {
    Inv(overlap, s) && forall t :: t in s.released ==> t in s.tasks
  }

  lemma StepKeepsInv(overlap: int, s: State, step: Step)
    requires FullInv(overlap, s) && Enabled(overlap, s, step) && Orderly(s, step)
    ensures FullInv(overlap, Next(overlap, s, step))
    ensures s.mark.Some? ==> Next(overlap, s, step).mark.Some? && Next(overlap, s, step).mark.value >= s.mark.value
  {
    match step
    case Read(_, _) => ReadStep(overlap, s, step);
    case Submit(_, _) => SubmitStep(overlap, s, step);
    case Commit(_) => CommitStep(overlap, s, step);
    case Edit(_, _) => EditStep(overlap, s, step);
    case _ => OtherStep(overlap, s, step);
  }

  /** No record is skipped: after any orderly run of edits, outstanding polls, retries, commits,
      shutdowns and crashes, every current version that has not been handled is in what the
      next poll reads, and the mark has not moved back. */
  lemma {:induction false} NoRecordIsSkipped(overlap: int, s: State, steps: seq<Step>)
    requires FullInv(overlap, s) && IsRun(overlap, s, steps)
    ensures
      var end := Run(overlap, s, steps);
      && FullInv(overlap, end)
      && (s.mark.Some? ==> end.mark.Some? && end.mark.value >= s.mark.value)
      && forall id :: id in end.peer && end.peer[id] !in end.handled ==> end.peer[id] in ReadSet(overlap, end)
    decreases steps
  {
    if |steps| > 0 {
      StepKeepsInv(overlap, s, steps[0]);
      NoRecordIsSkipped(overlap, Next(overlap, s, steps[0]), steps[1..]);
    }
  }

  lemma InitialInv(overlap: int)
    ensures FullInv(overlap, Initial)
  {}

  // ---- progress ------------------------------------------------------------------------------

  /** The poll read, or somebody handled, every version that is current. */
  ghost predicate ReadEverything(s: State, p: nat)
  {
    p in s.polls && forall id :: id in s.peer && s.peer[id] !in s.handled ==> s.peer[id] in s.polls[p].events
  }

  predicate Quiet(step: Step, p: nat) { !step.Edit? && !step.Crash? && step != Commit(p) }

  lemma {:induction false} QuietRun(overlap: int, s: State, steps: seq<Step>, p: nat)
    requires FullInv(overlap, s) && IsRun(overlap, s, steps) && ReadEverything(s, p)
    requires forall i :: 0 <= i < |steps| ==> Quiet(steps[i], p)
    ensures FullInv(overlap, Run(overlap, s, steps)) && ReadEverything(Run(overlap, s, steps), p)
    decreases steps
  {
    if |steps| > 0 {
      var s' := Next(overlap, s, steps[0]);
      StepKeepsInv(overlap, s, steps[0]);
      assert s'.polls[p].events == s.polls[p].events;
      QuietRun(overlap, s', steps[1..], p);
    }
  }

  /** A cycle in which nobody edits ends with everything handled: whatever else happens between
      a read and its commit, all that is current at the commit has been dealt with. */
  lemma QuietCycleHandlesEverything(overlap: int, s: State, p: nat, highest: int, steps: seq<Step>)
    requires FullInv(overlap, s) && Enabled(overlap, s, Read(p, highest))
    requires IsRun(overlap, Next(overlap, s, Read(p, highest)), steps)
    requires forall i :: 0 <= i < |steps| ==> Quiet(steps[i], p)
    requires
      var end := Run(overlap, Next(overlap, s, Read(p, highest)), steps);
      Enabled(overlap, end, Commit(p)) && !end.stopped
    ensures
      var end := Run(overlap, Next(overlap, s, Read(p, highest)), steps);
      forall id :: id in end.peer ==> end.peer[id] in end.handled
  {
    var s1 := Next(overlap, s, Read(p, highest));
    StepKeepsInv(overlap, s, Read(p, highest));
    QuietRun(overlap, s1, steps, p);
    var end := Run(overlap, s1, steps);
    assert TasksCover(end, end.polls[p]);
  }

  // ---- where the guarantee ends ------------------------------------------------------------------

  lemma MarkNeverFalls(overlap: int, s: State, step: Step)
    requires Enabled(overlap, s, step)
    ensures s.mark.Some? ==> Next(overlap, s, step).mark.Some? && Next(overlap, s, step).mark.value >= s.mark.value
  {}

  /** The peer stamps a version further back than the overlap, which the runs above rule out. Unless the record
      is edited once more, no poll ever reads that version: not the next one, and none after any run. */
  lemma {:induction false} LateStampIsNeverRead(overlap: int, s: State, v: Version, steps: seq<Step>)
    requires v.id in s.peer && s.peer[v.id] == v && s.mark.Some? && v.stamp < s.mark.value - overlap
    requires IsRun(overlap, s, steps) && forall i :: 0 <= i < |steps| ==> !(steps[i].Edit? && steps[i].id == v.id)
    requires forall id :: id in s.peer ==> s.peer[id].id == id
    ensures v !in ReadSet(overlap, Run(overlap, s, steps))
    decreases steps
  {
    if |steps| > 0 && !(steps[0].Remove? && steps[0].id == v.id) {
      MarkNeverFalls(overlap, s, steps[0]);
      LateStampIsNeverRead(overlap, Next(overlap, s, steps[0]), v, steps[1..]);
    } else if |steps| > 0 {
      GoneIsNeverRead(overlap, Next(overlap, s, steps[0]), v, steps[1..]);
    }
  }

  lemma {:induction false} GoneIsNeverRead(overlap: int, s: State, v: Version, steps: seq<Step>)
    requires forall id :: id in s.peer ==> s.peer[id].id == id
    requires v.id !in s.peer && IsRun(overlap, s, steps)
    requires forall i :: 0 <= i < |steps| ==> !(steps[i].Edit? && steps[i].id == v.id)
    ensures v !in ReadSet(overlap, Run(overlap, s, steps))
    decreases steps
  {
    if |steps| > 0 { GoneIsNeverRead(overlap, Next(overlap, s, steps[0]), v, steps[1..]); }
  }

  /** No version the poll read and nobody handled lies further below the point its commit would move to
      than the overlap. */
  ghost predicate NothingLeftBehind(overlap: int, s: State, p: Poll)
  {
    p.highest != ZERO ==>
      forall id :: id in s.peer && s.peer[id] in p.events && s.peer[id] !in s.handled ==>
        s.peer[id].stamp >= (if p.highest > s.now then s.now else p.highest) - overlap
  }

  /** Stopped or not, a commit keeps every unhandled version readable exactly when its poll leaves none of
      its own behind; every version the poll did not read is safe already. */
  lemma CommitIsSafeIff(overlap: int, s: State, p: nat)
    requires FullInv(overlap, s) && Enabled(overlap, s, Commit(p))
    ensures NothingSkipped(overlap, Next(overlap, s, Commit(p))) <==> NothingLeftBehind(overlap, s, s.polls[p])
    ensures !s.stopped ==> NothingLeftBehind(overlap, s, s.polls[p])
  {}

  const OldVersion := Version("a", 0, 100)
  const NewVersion := Version("b", 1, 500)
  const TwoEdits := Initial.(
    peer := map["a" := OldVersion, "b" := NewVersion], nextRev := 2, top := Some(500), now := 600)
  const TwoTasks := map[0 := OldVersion, 1 := NewVersion]
  const AfterRead := TwoEdits.(polls := map[0 := Poll({OldVersion, NewVersion}, 500, None)])
  const AfterSubmit := AfterRead.(polls := map[0 := Poll({OldVersion, NewVersion}, 500, Some({0, 1}))],
    tasks := TwoTasks)
  const AfterStop := AfterSubmit.(released := {0, 1}, stopped := true)

  /** Two records are edited while nothing is known yet. */
  lemma TwoEditsAreMade()
    ensures
      && Enabled(300, Initial, Edit("a", 100))
      && var s1 := Next(300, Initial, Edit("a", 100));
      && Enabled(300, s1, Edit("b", 500))
      && var s2 := Next(300, s1, Edit("b", 500));
      && Enabled(300, s2, Tick(600)) && Next(300, s2, Tick(600)) == TwoEdits
    ensures FullInv(300, TwoEdits)
  {}

  lemma BothAreRead()
    ensures Enabled(300, TwoEdits, Read(0, 500)) && Next(300, TwoEdits, Read(0, 500)) == AfterRead
  {
    assert TwoEdits.peer["a"] == OldVersion && TwoEdits.peer["b"] == NewVersion;
    assert ReadSet(300, TwoEdits) == {OldVersion, NewVersion};
    assert OldVersion.stamp in Stamps({OldVersion, NewVersion}) && NewVersion.stamp in Stamps({OldVersion, NewVersion});
  }

  lemma BothAreSubmitted()
    ensures Enabled(300, AfterRead, Submit(0, TwoTasks)) && Next(300, AfterRead, Submit(0, TwoTasks)) == AfterSubmit
  {
    assert TwoTasks[0] == OldVersion && TwoTasks[1] == NewVersion;
    assert TwoTasks.Values == {OldVersion, NewVersion};
    assert TwoTasks.Keys == {0, 1};
    assert map[] + TwoTasks == TwoTasks;
  }

  lemma ReadThenSubmitThenStop()
    ensures FullInv(300, TwoEdits)
    ensures Enabled(300, TwoEdits, Read(0, 500)) && Next(300, TwoEdits, Read(0, 500)) == AfterRead
    ensures Enabled(300, AfterRead, Submit(0, TwoTasks)) && Next(300, AfterRead, Submit(0, TwoTasks)) == AfterSubmit
    ensures Enabled(300, AfterSubmit, Stop) && Next(300, AfterSubmit, Stop) == AfterStop
  {
    TwoEditsAreMade();
    BothAreRead();
    BothAreSubmitted();
    assert TwoTasks.Keys == {0, 1};
  }

  /** The same state is reached when the poll is submitted only after the stop. */
  lemma ReadThenStopThenSubmit()
    ensures Enabled(300, AfterRead, Stop)
    ensures
      var stopped := Next(300, AfterRead, Stop);
      Enabled(300, stopped, Submit(0, TwoTasks)) && Next(300, stopped, Submit(0, TwoTasks)) == AfterStop
  {
    BothAreSubmitted();
    assert TwoTasks.Keys == {0, 1};
  }

  /** Stopping releases the handles of unprocessed tasks, so a commit that follows it, before a
      restart, moves the mark over them: here a version that nobody handled is never read again. */
  lemma CommitAfterStopSkips()
    ensures Enabled(300, AfterStop, Commit(0)) && !Orderly(AfterStop, Commit(0))
    ensures
      var end := Next(300, AfterStop, Commit(0));
      end.peer["a"] !in end.handled && end.peer["a"] !in ReadSet(300, end)
  {}
}
