/** Propagating a deletion (`processDelete` and `dropLink` in internal/engine/pipeline.go) by any
    number of concurrent workers, with failures, retries and crashes between any two steps. */
module DeletePath {
  import opened Wrappers
  import opened Model
  import opened Digest
  import Idem
  import opened Identity

  /** What a worker has done so far about the deletion of `from`. */
  datatype Pc =
    | Idle
    | Started(from: Ref)
    | HasPeer(from: Ref, peer: Ref)
    | Cleared(from: Ref, peer: Ref)
    | MayCall(from: Ref, peer: Ref)
    | Called(from: Ref, peer: Ref)
    | MayDrop(from: Ref, peer: Ref)
    | Dropping(from: Ref, peer: Ref, link: Link)
    | HalfDropped(from: Ref, peer: Ref, link: Link)

  /** A removed row of the link table: whose deletion removed it, the peer that deletion had deleted, the
      record the row was filed under, and what it said. */
  datatype Drop = Drop(from: Ref, peer: Ref, row: Ref, link: Link)

  /** `deleted` are the (from, peer) pairs whose delete call has succeeded under that pair's key. */
  datatype State = State(
    now: int, marks: Idem.Marks, rows: map<Ref, Link>, workers: map<nat, Pc>,
    deleted: set<(Ref, Ref)>, drops: seq<Drop>)

  datatype Step =
    | Receive(worker: nat, from: Ref)
    | ReadLink(worker: nat)
    | Begin(worker: nat)
    | Reclaim(worker: nat)
    | CallOk(worker: nat)
    | CallFails(worker: nat)
    | CommitMark(worker: nat)
    | ReadAgain(worker: nat)
    | DropLeft(worker: nat)
    | DropRight(worker: nat)
    | Tick(to: int)
    | Crash
    | Relink(link: Link)

  /** One sync covers one kind of record; `key` derives the idempotency key of a deletion. */
  datatype Config = Config(kind: string, ttl: int, key: (Ref, Ref) -> Hash)

  function DeleteKey(sync: string, kind: string): (Ref, Ref) -> Hash
  {
    (from, peer) => IdemKey(sync, kind, from, peer, "delete")
  }

  /** Different pairs of records of the sync's kind have different keys. */
  ghost predicate Distinguishes(cfg: Config)
  {
    forall a: Ref, b: Ref, a': Ref, b': Ref {:trigger cfg.key(a, b), cfg.key(a', b')} ::
      a.kind == b.kind == a'.kind == b'.kind == cfg.kind && cfg.key(a, b) == cfg.key(a', b') ==> a == a' && b == b'
  }

  /** The program's own key does. */
  lemma DeleteKeyDistinguishes(sync: string, kind: string, ttl: int)
    ensures Distinguishes(Config(kind, ttl, DeleteKey(sync, kind)))
  {
    forall a: Ref, b: Ref, a': Ref, b': Ref
      ensures a.kind == b.kind == a'.kind == b'.kind == kind ==>
        DeleteKey(sync, kind)(a, b) == DeleteKey(sync, kind)(a', b') ==> a == a' && b == b'
    {
      IdemKeyInjective(sync, kind, a, b, "delete", sync, kind, a', b', "delete");
    }
  }

  function PcOf(s: State, w: nat): Pc { if w in s.workers then s.workers[w] else Idle }

  function At(s: State, w: nat, pc: Pc): State { s.(workers := s.workers[w := pc]) }

  predicate OfKind(cfg: Config, l: Link) { l.left.kind == l.right.kind == cfg.kind }

  predicate Enabled(cfg: Config, s: State, step: Step)
  {
    match step
    case Receive(w, from) => PcOf(s, w).Idle? && from.kind == cfg.kind
    case ReadLink(w) => PcOf(s, w).Started?
    case Begin(w) => PcOf(s, w).HasPeer?
    case Reclaim(w) => PcOf(s, w).Cleared?
    case CallOk(w) => PcOf(s, w).MayCall?
    case CallFails(w) => PcOf(s, w).MayCall?
    case CommitMark(w) => PcOf(s, w).Called?
    case ReadAgain(w) => PcOf(s, w).MayDrop?
    case DropLeft(w) => PcOf(s, w).Dropping?
    case DropRight(w) => PcOf(s, w).HalfDropped?
    case Tick(to) => to >= s.now
    case Crash => true
    case Relink(link) => OfKind(cfg, link)
  }

  /** An in-flight mark is cleared and taken afresh; only a committed one lets the drop go ahead. */
  function AfterBegin(cfg: Config, s: State, w: nat, from: Ref, peer: Ref): State
  {
    var key := cfg.key(from, peer);
    match Idem.Decide(s.marks, key, s.now)
    case Replayed(_) => At(s, w, MayDrop(from, peer))
    case Recheck => At(s.(marks := Idem.Abandoned(s.marks, key)), w, Cleared(from, peer))
    case Proceed => At(s.(marks := Idem.Begun(s.marks, key, s.now, cfg.ttl)), w, MayCall(from, peer))
  }

  /** The second `Begin`, after the stale mark was cleared. Its own answer decides: without a live
      mark it proceeds, and a recheck would go straight on to the drop. */
  function AfterReclaim(cfg: Config, s: State, w: nat, from: Ref, peer: Ref): State
  {
    var key := cfg.key(from, peer);
    if Idem.Decide(s.marks, key, s.now).Proceed?
    then At(s.(marks := Idem.Begun(s.marks, key, s.now, cfg.ttl)), w, MayCall(from, peer))
    else At(s, w, MayDrop(from, peer))
  }

  /** `dropLink` reads the row of `from` again and takes whatever link it now names. */
  function AfterReadAgain(s: State, w: nat, from: Ref, peer: Ref): State
  {
    At(s, w, if from in s.rows then Dropping(from, peer, s.rows[from]) else Idle)
  }

  /** Deleting one row, without looking at what it says by now. */
  function RowDropped(s: State, from: Ref, peer: Ref, row: Ref): State
  {
    if row in s.rows then s.(rows := s.rows - {row}, drops := s.drops + [Drop(from, peer, row, s.rows[row])]) else s
  }

  function Next(cfg: Config, s: State, step: Step): State
    requires Enabled(cfg, s, step)
  {
    match step
    case Receive(w, from) => At(s, w, Started(from))
    case ReadLink(w) =>
      var from := PcOf(s, w).from;
      if from in s.rows && PeerOf(s.rows[from], from).Some?
      then At(s, w, HasPeer(from, PeerOf(s.rows[from], from).value)) else At(s, w, Idle)
    case Begin(w) => AfterBegin(cfg, s, w, PcOf(s, w).from, PcOf(s, w).peer)
    case Reclaim(w) => AfterReclaim(cfg, s, w, PcOf(s, w).from, PcOf(s, w).peer)
    case CallOk(w) =>
      At(s.(deleted := s.deleted + {(PcOf(s, w).from, PcOf(s, w).peer)}), w, Called(PcOf(s, w).from, PcOf(s, w).peer))
    case CallFails(w) => At(s, w, Idle)
    case CommitMark(w) =>
      var pc := PcOf(s, w);
      At(s.(marks := Idem.Committed(s.marks, cfg.key(pc.from, pc.peer), pc.peer.remoteID, s.now, cfg.ttl)),
         w, MayDrop(pc.from, pc.peer))
    case ReadAgain(w) => AfterReadAgain(s, w, PcOf(s, w).from, PcOf(s, w).peer)
    case DropLeft(w) =>
      var pc := PcOf(s, w);
      At(RowDropped(s, pc.from, pc.peer, pc.link.left), w, HalfDropped(pc.from, pc.peer, pc.link))
    case DropRight(w) =>
      var pc := PcOf(s, w);
      At(RowDropped(s, pc.from, pc.peer, pc.link.right), w, Idle)
    case Tick(to) => s.(now := to)
    case Crash => s.(workers := map[])
    case Relink(link) => s.(rows := s.rows[link.left := link][link.right := link])
  }

  /** The lock on `from` keeps a second worker off a deletion that one is already handling. */
  predicate LockFree(s: State, step: Step)
  {
    step.Receive? ==> forall w :: w in s.workers && !s.workers[w].Idle? ==> s.workers[w].from != step.from
  }

  ghost predicate IsRun(cfg: Config, s: State, steps: seq<Step>)
    decreases steps
  {
    |steps| > 0 ==>
      Enabled(cfg, s, steps[0]) && LockFree(s, steps[0]) && IsRun(cfg, Next(cfg, s, steps[0]), steps[1..])
  }

  ghost function Run(cfg: Config, s: State, steps: seq<Step>): State
    requires IsRun(cfg, s, steps)
    decreases steps
  {
    if |steps| == 0 then s else Run(cfg, Next(cfg, s, steps[0]), steps[1..])
  }

  // ---- no drop without a delete --------------------------------------------------------------------

  predicate PastCall(pc: Pc) { pc.Called? || pc.MayDrop? || pc.Dropping? || pc.HalfDropped? }

  predicate WorkerOk(cfg: Config, s: State, pc: Pc)
  {
    && (!pc.Idle? ==> pc.from.kind == cfg.kind)
    && (!pc.Idle? && !pc.Started? ==> pc.peer.kind == cfg.kind)
    && (PastCall(pc) ==> (pc.from, pc.peer) in s.deleted)
    && (pc.Cleared? ==> cfg.key(pc.from, pc.peer) !in s.marks)
  }

  /** A result, rather than an intent, is on record for the key. */
  predicate OnRecord(marks: Idem.Marks, key: Hash) { key in marks && !marks[key].inFlight }

  /** A committed mark stands for a delete that succeeded, and so does a worker past its call; a worker
      that has cleared a stale mark finds it still cleared, because the lock keeps others off its key. */
  ghost predicate Inv(cfg: Config, s: State)
  {
    && Distinguishes(cfg)
    && (forall r :: r in s.rows ==> OfKind(cfg, s.rows[r]))
    && (forall w :: w in s.workers ==> WorkerOk(cfg, s, s.workers[w]))
    && (forall w, w' :: w in s.workers && w' in s.workers && w != w' && !s.workers[w].Idle? && !s.workers[w'].Idle? ==>
          s.workers[w].from != s.workers[w'].from)
    && (forall from: Ref, peer: Ref :: from.kind == peer.kind == cfg.kind && OnRecord(s.marks, cfg.key(from, peer)) ==>
          (from, peer) in s.deleted)
    && (forall i :: 0 <= i < |s.drops| ==> (s.drops[i].from, s.drops[i].peer) in s.deleted)
  }

  lemma BeginKeepsInv(cfg: Config, s: State, w: nat)
    requires Inv(cfg, s) && PcOf(s, w).HasPeer?
    ensures Inv(cfg, Next(cfg, s, Begin(w)))
  {}

  /** The mark was cleared and nobody else may take it, so the second `Begin` proceeds to the call. */
  lemma ReclaimKeepsInv(cfg: Config, s: State, w: nat)
    requires Inv(cfg, s) && PcOf(s, w).Cleared?
    ensures Inv(cfg, Next(cfg, s, Reclaim(w)))
    ensures PcOf(Next(cfg, s, Reclaim(w)), w).MayCall?
  {}

  lemma CommitKeepsInv(cfg: Config, s: State, w: nat)
    requires Inv(cfg, s) && PcOf(s, w).Called?
    ensures Inv(cfg, Next(cfg, s, CommitMark(w)))
  {}

  lemma OtherKeepsInv(cfg: Config, s: State, step: Step)
    requires Inv(cfg, s) && Enabled(cfg, s, step) && LockFree(s, step)
    requires !step.Begin? && !step.Reclaim? && !step.CommitMark? && !step.DropLeft? && !step.DropRight?
    ensures Inv(cfg, Next(cfg, s, step))
  {
    match step
    case Receive(w, from) => MoveKeepsInv(cfg, s, w, Started(from), s.deleted);
    case ReadLink(w) => MoveKeepsInv(cfg, s, w, PcOf(Next(cfg, s, step), w), s.deleted);
    case CallOk(w) =>
      var pc := PcOf(s, w);
      MoveKeepsInv(cfg, s, w, Called(pc.from, pc.peer), s.deleted + {(pc.from, pc.peer)});
    case CallFails(w) => MoveKeepsInv(cfg, s, w, Idle, s.deleted);
    case ReadAgain(w) => MoveKeepsInv(cfg, s, w, PcOf(Next(cfg, s, step), w), s.deleted);
    case _ =>
  }

  /** One worker moves on, touching neither marks nor rows. */
  lemma MoveKeepsInv(cfg: Config, s: State, w: nat, pc: Pc, deleted: set<(Ref, Ref)>)
    requires Inv(cfg, s) && s.deleted <= deleted && WorkerOk(cfg, s.(deleted := deleted), pc)
    requires !pc.Idle? ==> forall v :: v in s.workers && v != w && !s.workers[v].Idle? ==> s.workers[v].from != pc.from
    ensures Inv(cfg, At(s.(deleted := deleted), w, pc))
  {
    var s' := At(s.(deleted := deleted), w, pc);
    forall v | v in s'.workers
      ensures WorkerOk(cfg, s', s'.workers[v])
    {
      if v != w { assert WorkerOk(cfg, s, s.workers[v]); }
    }
  }

  lemma DropKeepsInv(cfg: Config, s: State, step: Step)
    requires Inv(cfg, s) && Enabled(cfg, s, step) && (step.DropLeft? || step.DropRight?)
    ensures Inv(cfg, Next(cfg, s, step))
  {
    var s' := Next(cfg, s, step);
    forall v | v in s'.workers
      ensures WorkerOk(cfg, s', s'.workers[v])
    {
      assert WorkerOk(cfg, s, s.workers[v]);
    }
  }

  lemma StepKeepsInv(cfg: Config, s: State, step: Step)
    requires Inv(cfg, s) && Enabled(cfg, s, step) && LockFree(s, step)
    ensures Inv(cfg, Next(cfg, s, step))
  {
    match step
    case Begin(w) => BeginKeepsInv(cfg, s, w);
    case Reclaim(w) => ReclaimKeepsInv(cfg, s, w);
    case CommitMark(w) => CommitKeepsInv(cfg, s, w);
    case DropLeft(_) => DropKeepsInv(cfg, s, step);
    case DropRight(_) => DropKeepsInv(cfg, s, step);
    case _ => OtherKeepsInv(cfg, s, step);
  }

  /** Delete safety: in every run, whatever fails, retries or crashes, a worker removes a link only after
      the delete call for the peer it had read succeeded under that pair's key. */
  lemma {:induction false} DropOnlyAfterDelete(cfg: Config, s: State, steps: seq<Step>)
    requires Inv(cfg, s) && IsRun(cfg, s, steps)
    ensures Inv(cfg, Run(cfg, s, steps))
    ensures
      var end := Run(cfg, s, steps);
      forall i :: 0 <= i < |end.drops| ==> (end.drops[i].from, end.drops[i].peer) in end.deleted
    decreases steps
  {
    if |steps| > 0 {
      StepKeepsInv(cfg, s, steps[0]);
      DropOnlyAfterDelete(cfg, Next(cfg, s, steps[0]), steps[1..]);
    }
  }

  // ---- the rows removed are those of the deleted pair --------------------------------------------------

  /** The worker has read the link and may still remove the row of `from`. */
  predicate Due(pc: Pc)
  {
    pc.HasPeer? || pc.Cleared? || pc.MayCall? || pc.Called? || pc.MayDrop? || pc.Dropping?
    || (pc.HalfDropped? && pc.link.right == pc.from)
  }

  /** The row removed is that of `from` and names the very peer whose deletion succeeded, or it is that
      peer's own. */
  predicate DropJustified(s: State, d: Drop)
  {
    && (d.from, d.peer) in s.deleted
    && (if d.row == d.from then PeerOf(d.link, d.from) == Some(d.peer) else d.row == d.peer)
  }

  ghost predicate AllJustified(s: State) { forall i :: 0 <= i < |s.drops| ==> DropJustified(s, s.drops[i]) }

  /** What a worker read is what the row still says, as long as the worker may remove it. */
  ghost predicate Faithful(s: State)
  {
    && (forall w :: w in s.workers && Due(s.workers[w]) && s.workers[w].from in s.rows ==>
          PeerOf(s.rows[s.workers[w].from], s.workers[w].from) == Some(s.workers[w].peer))
    && (forall w :: w in s.workers && (s.workers[w].Dropping? || s.workers[w].HalfDropped?) ==>
          PeerOf(s.workers[w].link, s.workers[w].from) == Some(s.workers[w].peer))
    && AllJustified(s)
  }

  /** A link that gives no record another counterpart than a deletion of it under way has read. */
  predicate Spares(link: Link, pc: Pc)
  {
    Due(pc) && (pc.from == link.left || pc.from == link.right) ==> PeerOf(link, pc.from) == Some(pc.peer)
  }

  ghost predicate Harmless(s: State, step: Step)
  {
    step.Relink? ==> forall w :: w in s.workers ==> Spares(step.link, s.workers[w])
  }

  ghost predicate HarmlessRun(cfg: Config, s: State, steps: seq<Step>)
    requires IsRun(cfg, s, steps)
    decreases steps
  {
    |steps| > 0 ==> Harmless(s, steps[0]) && HarmlessRun(cfg, Next(cfg, s, steps[0]), steps[1..])
  }

  lemma RowStep(cfg: Config, s: State, step: Step)
    requires Inv(cfg, s) && Faithful(s) && Enabled(cfg, s, step) && (step.DropLeft? || step.DropRight?)
    ensures Faithful(Next(cfg, s, step))
  {
    var w := step.worker;
    assert WorkerOk(cfg, s, s.workers[w]);
  }

  lemma FaithfulStep(cfg: Config, s: State, step: Step)
    requires Inv(cfg, s) && Faithful(s) && Enabled(cfg, s, step) && LockFree(s, step) && Harmless(s, step)
    ensures Faithful(Next(cfg, s, step))
  {
    match step
    case DropLeft(_) => RowStep(cfg, s, step);
    case DropRight(_) => RowStep(cfg, s, step);
    case Relink(link) => RelinkStep(cfg, s, link);
    case _ => QuietStep(cfg, s, step);
  }

  lemma RelinkStep(cfg: Config, s: State, link: Link)
    requires Faithful(s) && OfKind(cfg, link) && Harmless(s, Relink(link))
    ensures Faithful(Next(cfg, s, Relink(link)))
  {}

  /** No other step touches the table, and a worker takes its peer from the row itself. */
  lemma QuietStep(cfg: Config, s: State, step: Step)
    requires Faithful(s) && Enabled(cfg, s, step) && !step.Relink? && !step.DropLeft? && !step.DropRight?
    ensures Faithful(Next(cfg, s, step))
  {
    if !step.Tick? && !step.Crash? {
      MoveIsFaithful(s, Next(cfg, s, step), step.worker);
    }
  }

  lemma MoveIsFaithful(s: State, s': State, w: nat)
    requires Faithful(s) && s'.rows == s.rows && s'.drops == s.drops && s.deleted <= s'.deleted
    requires w in s'.workers && s'.workers == s.workers[w := s'.workers[w]]
    requires
      var pc := s'.workers[w];
      && (Due(pc) && pc.from in s.rows ==> PeerOf(s.rows[pc.from], pc.from) == Some(pc.peer))
      && (pc.Dropping? || pc.HalfDropped? ==> PeerOf(pc.link, pc.from) == Some(pc.peer))
    ensures Faithful(s')
  {
    forall i | 0 <= i < |s'.drops|
      ensures DropJustified(s', s'.drops[i])
    {
      assert DropJustified(s, s.drops[i]);
    }
  }

  /** Whatever fails, retries or crashes, and whatever is linked meanwhile, every row removed is justified, as
      long as no record is given another counterpart while its deletion may still remove its row. */
  lemma {:induction false} DropsTheDeletedPair(cfg: Config, s: State, steps: seq<Step>)
    requires Inv(cfg, s) && Faithful(s) && IsRun(cfg, s, steps) && HarmlessRun(cfg, s, steps)
    ensures Inv(cfg, Run(cfg, s, steps)) && Faithful(Run(cfg, s, steps))
    ensures AllJustified(Run(cfg, s, steps))
    decreases steps
  {
    if |steps| > 0 {
      StepKeepsInv(cfg, s, steps[0]);
      FaithfulStep(cfg, s, steps[0]);
      DropsTheDeletedPair(cfg, Next(cfg, s, steps[0]), steps[1..]);
    }
  }

  // ---- a link that is not spared is lost -----------------------------------------------------------------

  ghost predicate SafeAfter(cfg: Config, s: State)
  {
    forall steps :: IsRun(cfg, s, steps) && HarmlessRun(cfg, s, steps) ==> AllJustified(Run(cfg, s, steps))
  }

  predicate Ends(link: Link, r: Ref) { r == link.left || r == link.right }

  /** The worker may still remove the row of `from`, which by now names somebody else. */
  predicate Doomed(s: State, w: nat)
  {
    var pc := PcOf(s, w);
    && Due(pc) && pc.from in s.rows && Ends(s.rows[pc.from], pc.from)
    && PeerOf(s.rows[pc.from], pc.from) != Some(pc.peer)
    && (pc.Dropping? ==> Ends(pc.link, pc.from))
  }

  function Ahead(pc: Pc): nat
  {
    match pc
    case HasPeer(_, _) => 7
    case Cleared(_, _) => 6
    case MayCall(_, _) => 5
    case Called(_, _) => 4
    case MayDrop(_, _) => 3
    case Dropping(_, _, _) => 2
    case HalfDropped(_, _, _) => 1
    case _ => 0
  }

  /** The worker's own next step, its call succeeding. */
  function Onward(pc: Pc, w: nat): Step
  {
    match pc
    case HasPeer(_, _) => Begin(w)
    case Cleared(_, _) => Reclaim(w)
    case MayCall(_, _) => CallOk(w)
    case Called(_, _) => CommitMark(w)
    case MayDrop(_, _) => ReadAgain(w)
    case Dropping(_, _, _) => DropLeft(w)
    case _ => DropRight(w)
  }

  lemma OneMoreStep(cfg: Config, s: State, step: Step, rest: seq<Step>)
    requires Enabled(cfg, s, step) && LockFree(s, step) && Harmless(s, step)
    requires IsRun(cfg, Next(cfg, s, step), rest) && HarmlessRun(cfg, Next(cfg, s, step), rest)
    ensures IsRun(cfg, s, [step] + rest) && HarmlessRun(cfg, s, [step] + rest)
    ensures Run(cfg, s, [step] + rest) == Run(cfg, Next(cfg, s, step), rest)
  {
    assert ([step] + rest)[1..] == rest;
  }

  /** One step brings the worker closer to removing that row, or removes it. */
  lemma DoomedStep(cfg: Config, s: State, w: nat)
    requires Doomed(s, w)
    ensures
      var step := Onward(PcOf(s, w), w);
      && Enabled(cfg, s, step)
      && var s' := Next(cfg, s, step);
      || !AllJustified(s')
      || (Doomed(s', w) && Ahead(PcOf(s', w)) < Ahead(PcOf(s, w)))
  {
    var pc := PcOf(s, w);
    var s' := Next(cfg, s, Onward(pc, w));
    if (pc.Dropping? && pc.link.left == pc.from) || pc.HalfDropped? {
      assert s'.drops[|s.drops|] == Drop(pc.from, pc.peer, pc.from, s.rows[pc.from]);
    }
  }

  lemma {:induction false} DoomedRun(cfg: Config, s: State, w: nat) returns (steps: seq<Step>)
    requires Doomed(s, w)
    ensures IsRun(cfg, s, steps) && HarmlessRun(cfg, s, steps) && !AllJustified(Run(cfg, s, steps))
    decreases Ahead(PcOf(s, w))
  {
    var step := Onward(PcOf(s, w), w);
    DoomedStep(cfg, s, w);
    var s' := Next(cfg, s, step);
    var rest := [];
    if AllJustified(s') { rest := DoomedRun(cfg, s', w); }
    OneMoreStep(cfg, s, step, rest);
    steps := [step] + rest;
  }

  /** Linking two records is safe, in that nothing that follows removes an unjustified row, if and only if it
      gives neither of them another counterpart than a deletion under way has read. */
  lemma RelinkIsSafeIff(cfg: Config, s: State, link: Link)
    requires Inv(cfg, s) && Faithful(s) && OfKind(cfg, link)
    ensures SafeAfter(cfg, Next(cfg, s, Relink(link))) <==> Harmless(s, Relink(link))
  {
    var s' := Next(cfg, s, Relink(link));
    StepKeepsInv(cfg, s, Relink(link));
    if Harmless(s, Relink(link)) {
      FaithfulStep(cfg, s, Relink(link));
      forall steps | IsRun(cfg, s', steps) && HarmlessRun(cfg, s', steps)
        ensures AllJustified(Run(cfg, s', steps))
      {
        DropsTheDeletedPair(cfg, s', steps);
      }
    } else {
      var w :| w in s.workers && !Spares(link, s.workers[w]);
      UnsparedIsDoomed(cfg, s, link, w);
      var steps := DoomedRun(cfg, s', w);
    }
  }

  lemma UnsparedIsDoomed(cfg: Config, s: State, link: Link, w: nat)
    requires Faithful(s) && OfKind(cfg, link) && w in s.workers && !Spares(link, s.workers[w])
    ensures Doomed(Next(cfg, s, Relink(link)), w)
  {}

  // ---- both ways it happens, from an empty engine ------------------------------------------------------------

  function Fresh(now: int): State { State(now, map[], map[], map[], {}, []) }

  lemma FreshInv(cfg: Config, now: int)
    requires Distinguishes(cfg)
    ensures Inv(cfg, Fresh(now)) && Faithful(Fresh(now))
  {}

  function Linked(now: int, a: Ref, b: Ref, link: Link): State
  {
    Fresh(now).(rows := map[a := link, b := link])
  }

  /** `a` was linked to `b`, its deletion came in, and `b` has been deleted; next the link is to be dropped. */
  function Deleted(cfg: Config, now: int, a: Ref, b: Ref, link: Link): State
  {
    Linked(now, a, b, link).(
      marks := map[cfg.key(a, b) := Idem.Mark(false, b.remoteID, now + cfg.ttl)],
      workers := map[0 := MayDrop(a, b)], deleted := {(a, b)})
  }

  lemma PeerIsRead(cfg: Config, now: int, a: Ref, b: Ref, link: Link) returns (steps: seq<Step>)
    requires a != b && a.kind == b.kind == cfg.kind && link in {Link(a, b), Link(b, a)}
    ensures IsRun(cfg, Fresh(now), steps)
    ensures Run(cfg, Fresh(now), steps) == Linked(now, a, b, link).(workers := map[0 := HasPeer(a, b)])
  {
    var s0 := Fresh(now);
    steps := [];
    RunSnoc(cfg, s0, steps, Relink(link));
    steps := steps + [Relink(link)];
    assert Run(cfg, s0, steps) == Linked(now, a, b, link);
    RunSnoc(cfg, s0, steps, Receive(0, a));
    steps := steps + [Receive(0, a)];
    RunSnoc(cfg, s0, steps, ReadLink(0));
    steps := steps + [ReadLink(0)];
  }

  lemma CallsAreMade(cfg: Config, now: int, a: Ref, b: Ref, link: Link)
    ensures
      var s := Linked(now, a, b, link).(workers := map[0 := HasPeer(a, b)]);
      && Enabled(cfg, s, Begin(0))
      && var s1 := Next(cfg, s, Begin(0));
      && Enabled(cfg, s1, CallOk(0))
      && var s2 := Next(cfg, s1, CallOk(0));
      && Enabled(cfg, s2, CommitMark(0))
      && Next(cfg, s2, CommitMark(0)) == Deleted(cfg, now, a, b, link)
  {}

  lemma DeletedIsReached(cfg: Config, now: int, a: Ref, b: Ref, link: Link) returns (steps: seq<Step>)
    requires a != b && a.kind == b.kind == cfg.kind && link in {Link(a, b), Link(b, a)}
    ensures IsRun(cfg, Fresh(now), steps) && Run(cfg, Fresh(now), steps) == Deleted(cfg, now, a, b, link)
  {
    var s0 := Fresh(now);
    steps := PeerIsRead(cfg, now, a, b, link);
    CallsAreMade(cfg, now, a, b, link);
    RunSnoc(cfg, s0, steps, Begin(0));
    steps := steps + [Begin(0)];
    RunSnoc(cfg, s0, steps, CallOk(0));
    steps := steps + [CallOk(0)];
    RunSnoc(cfg, s0, steps, CommitMark(0));
    steps := steps + [CommitMark(0)];
  }

  /** Between the delete call and the drop another task, which locks on the identity fingerprint and not on the
      reference, links `a` again. The drop then removes the new link, whose peer nobody deleted. */
  lemma RelinkedDropRemovesLiveLink(cfg: Config, now: int, a: Ref, b: Ref, c: Ref) returns (steps: seq<Step>)
    requires a != b && b != c && a != c && a.kind == b.kind == c.kind == cfg.kind
    ensures IsRun(cfg, Fresh(now), steps)
    ensures
      var end := Run(cfg, Fresh(now), steps);
      && end.drops == [Drop(a, b, a, Link(a, c))] && !AllJustified(end)
      && (a, c) !in end.deleted && a !in end.rows && c in end.rows
  {
    var s0 := Fresh(now);
    steps := DeletedIsReached(cfg, now, a, b, Link(a, b));
    RunSnoc(cfg, s0, steps, Relink(Link(a, c)));
    steps := steps + [Relink(Link(a, c))];
    RunSnoc(cfg, s0, steps, ReadAgain(0));
    steps := steps + [ReadAgain(0)];
    assert PcOf(Run(cfg, s0, steps), 0) == Dropping(a, b, Link(a, c));
    RunSnoc(cfg, s0, steps, DropLeft(0));
    steps := steps + [DropLeft(0)];
    assert Run(cfg, s0, steps).drops[0] == Drop(a, b, a, Link(a, c));
  }

  /** The two rows go one by one, so a link made between the two is lost as well, and its other row is left
      dangling. */
  lemma RelinkedSecondRowIsLost(cfg: Config, now: int, a: Ref, b: Ref, c: Ref) returns (steps: seq<Step>)
    requires a != b && b != c && a != c && a.kind == b.kind == c.kind == cfg.kind
    ensures IsRun(cfg, Fresh(now), steps)
    ensures
      var end := Run(cfg, Fresh(now), steps);
      && end.drops == [Drop(a, b, b, Link(b, a)), Drop(a, b, a, Link(c, a))] && !AllJustified(end)
      && (a, c) !in end.deleted && a !in end.rows && c in end.rows
  {
    var s0 := Fresh(now);
    steps := DeletedIsReached(cfg, now, a, b, Link(b, a));
    RunSnoc(cfg, s0, steps, ReadAgain(0));
    steps := steps + [ReadAgain(0)];
    RunSnoc(cfg, s0, steps, DropLeft(0));
    steps := steps + [DropLeft(0)];
    assert PcOf(Run(cfg, s0, steps), 0) == HalfDropped(a, b, Link(b, a));
    RunSnoc(cfg, s0, steps, Relink(Link(c, a)));
    steps := steps + [Relink(Link(c, a))];
    RunSnoc(cfg, s0, steps, DropRight(0));
    steps := steps + [DropRight(0)];
    assert Run(cfg, s0, steps).drops[1] == Drop(a, b, a, Link(c, a));
  }

  // ---- one worker, start to finish ----------------------------------------------------------------------

  lemma {:induction false} RunSnoc(cfg: Config, s: State, steps: seq<Step>, step: Step)
    requires IsRun(cfg, s, steps)
    requires Enabled(cfg, Run(cfg, s, steps), step) && LockFree(Run(cfg, s, steps), step)
    ensures IsRun(cfg, s, steps + [step])
    ensures Run(cfg, s, steps + [step]) == Next(cfg, Run(cfg, s, steps), step)
    decreases steps
  {
    if |steps| > 0 {
      RunSnoc(cfg, Next(cfg, s, steps[0]), steps[1..], step);
      assert (steps + [step])[1..] == steps[1..] + [step];
    }
  }

  /** The row of `from` links it to `peer`. */
  predicate Names(rows: map<Ref, Link>, from: Ref, peer: Ref)
  {
    && from in rows
    && if rows[from].left == from then peer == rows[from].right else rows[from].right == from && peer == rows[from].left
  }

  /** A result for the key is on file and has not expired. */
  predicate OnFile(marks: Idem.Marks, key: Hash, now: int)
  {
    key in marks && now < marks[key].expires && !marks[key].inFlight
  }

  lemma NamesIff(rows: map<Ref, Link>, from: Ref)
    ensures forall peer :: Names(rows, from, peer) <==> from in rows && PeerOf(rows[from], from) == Some(peer)
    ensures from in rows && PeerOf(rows[from], from).Some? ==> Names(rows, from, PeerOf(rows[from], from).value)
  {}

  predicate SameBut(s: State, s': State) { s' == s.(workers := s'.workers, drops := s'.drops) }

  /** What deleting a linked record comes to: unless its deletion is on file, the peer's record is deleted, if the
      peer answers; then, or if it was on file, both rows of the link go; and the mark says how far it got. */
  predicate DeleteMeans(cfg: Config, s: State, from: Ref, peer: Ref, answer: bool, s': State, dropped: bool)
  {
    var key := cfg.key(from, peer);
    if OnFile(s.marks, key, s.now) then dropped && SameBut(s.(rows := s.rows - {from, peer}), s')
    else if answer then
      && dropped
      && SameBut(s.(rows := s.rows - {from, peer}, deleted := s.deleted + {(from, peer)},
                    marks := s.marks[key := Idem.Mark(false, peer.remoteID, s.now + cfg.ttl)]), s')
    else !dropped && SameBut(s.(marks := s.marks[key := Idem.Mark(true, "", s.now + cfg.ttl)]), s')
  }

  /** The part of the engine a deletion works on. What it did so far is kept as a run of the machine above,
      so that whatever holds of every run holds of it. */
  class Deleter {
    const cfg: Config
    const id: nat
    var now: int
    var marks: Idem.Marks
    var rows: map<Ref, Link>
    ghost var workers: map<nat, Pc>
    ghost var deleted: set<(Ref, Ref)>
    ghost var drops: seq<Drop>
    ghost var start: State
    ghost var steps: seq<Step>

    ghost function Here(): State
      reads this
    {
      State(now, marks, rows, workers, deleted, drops)
    }

    ghost predicate Valid()
      reads this
    {
      IsRun(cfg, start, steps) && Run(cfg, start, steps) == Here()
    }

    constructor (cfg: Config, id: nat, s: State)
      ensures Valid() && Here() == s && this.cfg == cfg && this.id == id
    {
      this.cfg, this.id := cfg, id;
      now, marks, rows := s.now, s.marks, s.rows;
      workers, deleted, drops := s.workers, s.deleted, s.drops;
      start, steps := s, [];
    }

    /** The ghost half of a step: `marks` and `rows` have been brought to what the machine says. */
    ghost method Follow(before: State, step: Step)
      requires IsRun(cfg, start, steps) && Run(cfg, start, steps) == before
      requires Enabled(cfg, before, step) && LockFree(before, step)
      requires var next := Next(cfg, before, step); now == next.now && marks == next.marks && rows == next.rows
      modifies this`workers, this`deleted, this`drops, this`steps
      ensures Valid() && Here() == Next(cfg, before, step)
      ensures steps == old(steps) + [step]
    {
      var next := Next(cfg, before, step);
      RunSnoc(cfg, start, steps, step);
      steps := steps + [step];
      workers, deleted, drops := next.workers, next.deleted, next.drops;
    }

    /** `answer` is whether the peer's delete call succeeds, should it be made. */
    method ProcessDelete(from: Ref, answer: bool) returns (dropped: bool)
      requires Valid() && from.kind == cfg.kind && PcOf(Here(), id).Idle? && LockFree(Here(), Receive(id, from))
      modifies this
      ensures Valid() && start == old(start) && old(steps) <= steps && PcOf(Here(), id).Idle?
      ensures
        var peer := if from in old(rows) then PeerOf(old(rows)[from], from) else None;
        dropped <==> peer.Some? && (answer || Idem.Decide(old(marks), cfg.key(from, peer.value), now).Replayed?)
      ensures rows == if dropped then old(rows) - {old(rows)[from].left, old(rows)[from].right} else old(rows)
      ensures (forall peer :: !Names(old(rows), from, peer)) ==> !dropped && SameBut(old(Here()), Here())
      ensures forall peer :: Names(old(rows), from, peer) ==>
        DeleteMeans(cfg, old(Here()), from, peer, answer, Here(), dropped)
    {
      NamesIff(rows, from);
      var other := PeerFor(from);
      if other.None? { return false; }
      dropped := Propagate(from, other.value, answer);
    }

    /** From the mark to the drop. */
    method Propagate(from: Ref, peer: Ref, answer: bool) returns (dropped: bool)
      requires Valid() && PcOf(Here(), id) == HasPeer(from, peer) && Names(rows, from, peer)
      modifies this
      ensures Valid() && start == old(start) && old(steps) <= steps && PcOf(Here(), id).Idle?
      ensures DeleteMeans(cfg, old(Here()), from, peer, answer, Here(), dropped)
    {
      var proceed := Claim(from, peer);
      if proceed {
        var ok := Call(from, peer, answer);
        if !ok { return false; }
      }
      DropLink(from, peer);
      dropped := true;
    }

    /** The other end of the record's link. */
    method PeerFor(from: Ref) returns (other: Option<Ref>)
      requires Valid() && from.kind == cfg.kind && PcOf(Here(), id).Idle? && LockFree(Here(), Receive(id, from))
      modifies this`workers, this`deleted, this`drops, this`steps
      ensures Valid() && old(steps) <= steps && deleted == old(deleted)
      ensures other == if from in rows then PeerOf(rows[from], from) else None
      ensures PcOf(Here(), id) == if other.Some? then HasPeer(from, other.value) else Idle
    {
      Follow(Here(), Receive(id, from));
      Follow(Here(), ReadLink(id));
      other := if from in rows then PeerOf(rows[from], from) else None;
    }

    /** The delete call, and the mark that says it succeeded. */
    method Call(from: Ref, peer: Ref, answer: bool) returns (ok: bool)
      requires Valid() && PcOf(Here(), id) == MayCall(from, peer)
      modifies this`marks, this`workers, this`deleted, this`drops, this`steps
      ensures Valid() && old(steps) <= steps
      ensures ok == answer
      ensures PcOf(Here(), id) == if ok then MayDrop(from, peer) else Idle
      ensures deleted == if ok then old(deleted) + {(from, peer)} else old(deleted)
      ensures marks ==
        if ok then old(marks)[cfg.key(from, peer) := Idem.Mark(false, peer.remoteID, now + cfg.ttl)] else old(marks)
    {
      if !answer {
        Follow(Here(), CallFails(id));
        return false;
      }
      Follow(Here(), CallOk(id));
      ghost var before := Here();
      marks := Idem.Committed(marks, cfg.key(from, peer), peer.remoteID, now, cfg.ttl);
      Follow(before, CommitMark(id));
      ok := true;
    }

    /** Takes the deletion's mark, clearing a stale one first; false when a result is on record. */
    method Claim(from: Ref, peer: Ref) returns (proceed: bool)
      requires Valid() && PcOf(Here(), id) == HasPeer(from, peer)
      modifies this`marks, this`workers, this`deleted, this`drops, this`steps
      ensures Valid() && old(steps) <= steps
      ensures proceed <==> !Idem.Decide(old(marks), cfg.key(from, peer), now).Replayed?
      ensures PcOf(Here(), id) == if proceed then MayCall(from, peer) else MayDrop(from, peer)
      ensures proceed <==> !OnFile(old(marks), cfg.key(from, peer), now)
      ensures marks ==
        if proceed then old(marks)[cfg.key(from, peer) := Idem.Mark(true, "", now + cfg.ttl)] else old(marks)
      ensures deleted == old(deleted)
    {
      ghost var before := Here();
      var key := cfg.key(from, peer);
      match Idem.Decide(marks, key, now)
      case Replayed(_) =>
        Follow(before, Begin(id));
        proceed := false;
      case Proceed =>
        marks := Idem.Begun(marks, key, now, cfg.ttl);
        Follow(before, Begin(id));
        proceed := true;
      case Recheck =>
        marks := Idem.Abandoned(marks, key);
        Follow(before, Begin(id));
        ClaimAgain(from, peer);
        proceed := true;
    }

    /** Takes the mark afresh once the stale one is cleared. */
    method ClaimAgain(from: Ref, peer: Ref)
      requires Valid() && PcOf(Here(), id) == Cleared(from, peer) && cfg.key(from, peer) !in marks
      modifies this`marks, this`workers, this`deleted, this`drops, this`steps
      ensures Valid() && old(steps) <= steps
      ensures PcOf(Here(), id) == MayCall(from, peer) && deleted == old(deleted)
      ensures marks == old(marks)[cfg.key(from, peer) := Idem.Mark(true, "", now + cfg.ttl)]
    {
      ghost var before := Here();
      marks := Idem.Begun(marks, cfg.key(from, peer), now, cfg.ttl);
      Follow(before, Reclaim(id));
    }

    /** The link row of `from` is read again, and both its rows go. */
    method DropLink(from: Ref, peer: Ref)
      requires Valid() && PcOf(Here(), id) == MayDrop(from, peer) && from in rows
      modifies this`rows, this`workers, this`deleted, this`drops, this`steps
      ensures Valid() && old(steps) <= steps && PcOf(Here(), id).Idle?
      ensures rows == old(rows) - {old(rows)[from].left, old(rows)[from].right}
      ensures deleted == old(deleted)
    {
      var link := rows[from];
      Follow(Here(), ReadAgain(id));
      DropFirst(from, peer, link);
      ghost var before := Here();
      rows := rows - {link.right};
      Follow(before, DropRight(id));
    }

    method DropFirst(from: Ref, peer: Ref, link: Link)
      requires Valid() && PcOf(Here(), id) == Dropping(from, peer, link)
      modifies this`rows, this`workers, this`deleted, this`drops, this`steps
      ensures Valid() && old(steps) <= steps && PcOf(Here(), id) == HalfDropped(from, peer, link)
      ensures rows == old(rows) - {link.left} && deleted == old(deleted)
    {
      ghost var before := Here();
      rows := rows - {link.left};
      Follow(before, DropLeft(id));
    }
  }
}
