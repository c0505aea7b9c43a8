/** The write log that recognises the engine's own changes when they come back
    (internal/origin/origin.go), and what its answers say about the history of calls. */
module Origin {
  import opened Wrappers
  import opened Model

  /** An entry is filed under a payload digest, or under the marker that some write happened. */
  datatype Tag = Payload(ref: Ref, hash: Hash) | Recent(ref: Ref)

  datatype Verdict = Foreign | Echo | NearMiss

  /** Expiry instants, in seconds. */
  type Log = map<Tag, int>

  const DEFAULT_WINDOW: int := 300

  predicate Alive(log: Log, tag: Tag, now: int) { tag in log && now < log[tag] }

  function Recorded(log: Log, ref: Ref, hash: Hash, expires: int): Log
  {
    log[Payload(ref, hash) := expires][Recent(ref) := expires]
  }

  function VerdictOn(log: Log, ref: Ref, hash: Hash, now: int): Verdict
  {
    if Alive(log, Payload(ref, hash), now) then Echo
    else if Alive(log, Recent(ref), now) then NearMiss
    else Foreign
  }

  /** Taking an entry removes it even when it has expired. */
  function Taken(log: Log, ref: Ref, hash: Hash): Log { log - {Payload(ref, hash)} }

  function SweptAt(log: Log, now: int): Log { map t | t in log && now < log[t] :: log[t] }

  class Suppressor {
    const window: map<string, int>
    var log: Log
    var echoes: nat
    var nearMisses: nat
    var foreign: nat
    var recorded: nat

    constructor (window: map<string, int>)
      ensures this.window == window && log == map[]
      ensures echoes == nearMisses == foreign == recorded == 0
    {
      this.window := window;
      log, echoes, nearMisses, foreign, recorded := map[], 0, 0, 0, 0;
    }

    function Window(connector: string): int { WindowFor(window, connector) }

    method Record(ref: Ref, hash: Hash, now: int)
      modifies this`log, this`recorded
      ensures log == Recorded(old(log), ref, hash, now + Window(ref.connector)) && recorded == old(recorded) + 1
    {
      var expires := now + Window(ref.connector);
      log := log[Payload(ref, hash) := expires];
      log := log[Recent(ref) := expires];
      recorded := recorded + 1;
    }

    method Classify(ref: Ref, hash: Hash, now: int) returns (v: Verdict)
      modifies this`log, this`echoes, this`nearMisses, this`foreign
      ensures v == VerdictOn(old(log), ref, hash, now) && log == Taken(old(log), ref, hash)
      ensures echoes == old(echoes) + (if v == Echo then 1 else 0)
      ensures nearMisses == old(nearMisses) + (if v == NearMiss then 1 else 0)
      ensures foreign == old(foreign) + (if v == Foreign then 1 else 0)
    {
      var found := Alive(log, Payload(ref, hash), now);
      log := log - {Payload(ref, hash)};
      if found {
        echoes := echoes + 1;
        return Echo;
      }
      if Alive(log, Recent(ref), now) {
        nearMisses := nearMisses + 1;
        return NearMiss;
      }
      foreign := foreign + 1;
      v := Foreign;
    }

    method Sweep(now: int) returns (dropped: nat)
      modifies this`log
      ensures log == SweptAt(old(log), now) && dropped == |old(log)| - |log|
      ensures forall t :: t in log <==> t in old(log) && now < old(log)[t]
    {
      var before := log;
      log := SweptAt(log, now);
      Shrinks(before, now);
      dropped := |before| - |log|;
    }
  }

  lemma Shrinks(log: Log, now: int)
    ensures |SweptAt(log, now)| <= |log|
  {
    assert SweptAt(log, now).Keys <= log.Keys;
    SubsetSize(SweptAt(log, now).Keys, log.Keys);
  }

  function WindowFor(window: map<string, int>, connector: string): int
  {
    if connector in window && window[connector] > 0 then window[connector] else DEFAULT_WINDOW
  }

  // ---- histories --------------------------------------------------------------------------------------

  datatype Call = Record(ref: Ref, hash: Hash) | Classify(ref: Ref, hash: Hash) | Sweep

  datatype Timed = Timed(now: int, call: Call)

  /** Clock readings that never go back. */
  predicate Monotone(h: seq<Timed>) { forall i, j :: 0 <= i < j < |h| ==> h[i].now <= h[j].now }

  function LogAfter(window: map<string, int>, h: seq<Timed>): Log
  {
    if |h| == 0 then map[]
    else
      var log, e := LogAfter(window, h[..|h| - 1]), h[|h| - 1];
      match e.call
      case Record(ref, hash) => Recorded(log, ref, hash, e.now + WindowFor(window, ref.connector))
      case Classify(ref, hash) => Taken(log, ref, hash)
      case Sweep => SweptAt(log, e.now)
  }

  /** When the tag was last recorded, unless it has been consumed since. */
  function LastRecord(h: seq<Timed>, ref: Ref, hash: Hash): Option<int>
  {
    if |h| == 0 then None
    else
      var e := h[|h| - 1];
      if e.call == Record(ref, hash) then Some(e.now)
      else if e.call == Classify(ref, hash) then None
      else LastRecord(h[..|h| - 1], ref, hash)
  }

  /** When anything was last recorded for the record. */
  function LastWrite(h: seq<Timed>, ref: Ref): Option<int>
  {
    if |h| == 0 then None
    else
      var e := h[|h| - 1];
      if e.call.Record? && e.call.ref == ref then Some(e.now) else LastWrite(h[..|h| - 1], ref)
  }

  predicate InWindow(at: Option<int>, window: int, now: int) { at.Some? && now < at.value + window }

  /** The answer the history calls for: an echo when the latest record or query of that very payload is a
      record inside the window, else a near miss when the record was written inside the window at all. */
  function Expected(window: map<string, int>, h: seq<Timed>, ref: Ref, hash: Hash, now: int): Verdict
  {
    var w := WindowFor(window, ref.connector);
    if InWindow(LastRecord(h, ref, hash), w, now) then Echo
    else if InWindow(LastWrite(h, ref), w, now) then NearMiss
    else Foreign
  }

  lemma {:induction false} LogHoldsHistory(window: map<string, int>, h: seq<Timed>, ref: Ref, hash: Hash, now: int)
    requires Monotone(h) && (|h| > 0 ==> h[|h| - 1].now <= now)
    ensures
      var w := WindowFor(window, ref.connector);
      && (Alive(LogAfter(window, h), Payload(ref, hash), now) <==> InWindow(LastRecord(h, ref, hash), w, now))
      && (Alive(LogAfter(window, h), Recent(ref), now) <==> InWindow(LastWrite(h, ref), w, now))
  {
    if |h| > 0 {
      var init := h[..|h| - 1];
      assert |init| > 0 ==> init[|init| - 1].now <= h[|h| - 1].now;
      LogHoldsHistory(window, init, ref, hash, now);
    }
  }

  /** The log answers what its history calls for; sweeps in between change nothing. */
  lemma ClassifyFollowsHistory(window: map<string, int>, h: seq<Timed>, ref: Ref, hash: Hash, now: int)
    requires Monotone(h) && (|h| > 0 ==> h[|h| - 1].now <= now)
    ensures VerdictOn(LogAfter(window, h), ref, hash, now) == Expected(window, h, ref, hash, now)
  {
    LogHoldsHistory(window, h, ref, hash, now);
  }

  function WithoutSweeps(h: seq<Timed>): seq<Timed>
  {
    if |h| == 0 then []
    else WithoutSweeps(h[..|h| - 1]) + if h[|h| - 1].call.Sweep? then [] else [h[|h| - 1]]
  }

  /** One more call at the end of a history. */
  lemma LastSnoc(h: seq<Timed>, e: Timed, ref: Ref, hash: Hash)
    ensures LastRecord(h + [e], ref, hash) ==
      if e.call == Record(ref, hash) then Some(e.now)
      else if e.call == Classify(ref, hash) then None
      else LastRecord(h, ref, hash)
    ensures LastWrite(h + [e], ref) == if e.call.Record? && e.call.ref == ref then Some(e.now) else LastWrite(h, ref)
  {
    assert (h + [e])[..|h + [e]| - 1] == h;
  }

  lemma {:induction false} SweepsDoNotMatter(h: seq<Timed>, ref: Ref, hash: Hash)
    ensures LastRecord(WithoutSweeps(h), ref, hash) == LastRecord(h, ref, hash)
    ensures LastWrite(WithoutSweeps(h), ref) == LastWrite(h, ref)
  {
    if |h| > 0 {
      var init, last := h[..|h| - 1], h[|h| - 1];
      SweepsDoNotMatter(init, ref, hash);
      assert h == init + [last];
      LastSnoc(init, last, ref, hash);
      if last.call.Sweep? {
        assert WithoutSweeps(h) == WithoutSweeps(init);
      } else {
        LastSnoc(WithoutSweeps(init), last, ref, hash);
      }
    }
  }

  lemma {:induction false} KeptCallsStayInOrder(h: seq<Timed>, now: int)
    requires Monotone(h) && forall i :: 0 <= i < |h| ==> h[i].now <= now
    ensures Monotone(WithoutSweeps(h)) && forall i :: 0 <= i < |WithoutSweeps(h)| ==> WithoutSweeps(h)[i].now <= now
  {
    if |h| > 0 {
      KeptCallsStayInOrder(h[..|h| - 1], h[|h| - 1].now);
    }
  }

  /** Sweeping, however often and whenever, never changes a verdict. */
  lemma VerdictIgnoresSweeps(window: map<string, int>, h: seq<Timed>, ref: Ref, hash: Hash, now: int)
    requires Monotone(h) && forall i :: 0 <= i < |h| ==> h[i].now <= now
    ensures VerdictOn(LogAfter(window, h), ref, hash, now)
      == VerdictOn(LogAfter(window, WithoutSweeps(h)), ref, hash, now)
  {
    KeptCallsStayInOrder(h, now);
    SweepsDoNotMatter(h, ref, hash);
    ClassifyFollowsHistory(window, h, ref, hash, now);
    ClassifyFollowsHistory(window, WithoutSweeps(h), ref, hash, now);
  }

  // ---- the engine's own writes ---------------------------------------------------------------------------

  /** Neither records nor asks about this payload. */
  predicate Elsewhere(c: Call, ref: Ref, hash: Hash) { c != Record(ref, hash) && c != Classify(ref, hash) }

  lemma {:induction false} LastRecordStands(h: seq<Timed>, e: Timed, later: seq<Timed>, ref: Ref, hash: Hash)
    requires !Elsewhere(e.call, ref, hash)
    requires forall i :: 0 <= i < |later| ==> Elsewhere(later[i].call, ref, hash)
    ensures LastRecord(h + [e] + later, ref, hash) == if e.call.Record? then Some(e.now) else None
    decreases later
  {
    if |later| == 0 {
      assert h + [e] + later == h + [e];
      LastSnoc(h, e, ref, hash);
    } else {
      var init, last := later[..|later| - 1], later[|later| - 1];
      LastRecordStands(h, e, init, ref, hash);
      assert h + [e] + later == h + [e] + init + [last];
      LastSnoc(h + [e] + init, last, ref, hash);
    }
  }

  /** How long a write is remembered: as long as configured for the connector, or else five minutes. */
  predicate LastsFor(window: map<string, int>, connector: string, seconds: int)
  {
    if connector in window && window[connector] > 0 then seconds == window[connector] else seconds == 300
  }

  lemma EchoIff(
    window: map<string, int>, h: seq<Timed>, e: Timed, later: seq<Timed>, ref: Ref, hash: Hash, now: int, seconds: int)
    requires Monotone(h + [e] + later) && forall i :: 0 <= i < |h + [e] + later| ==> (h + [e] + later)[i].now <= now
    requires !Elsewhere(e.call, ref, hash) && LastsFor(window, ref.connector, seconds)
    requires forall i :: 0 <= i < |later| ==> Elsewhere(later[i].call, ref, hash)
    ensures VerdictOn(LogAfter(window, h + [e] + later), ref, hash, now) == Echo
       <==> e.call.Record? && now < e.now + seconds
  {
    LastRecordStands(h, e, later, ref, hash);
    ClassifyFollowsHistory(window, h + [e] + later, ref, hash, now);
  }

  /** A write of the engine's own is recognised when it comes back, whatever else was recorded, asked or swept in
      between: the first inbound change with that payload is an echo if and only if it arrives within the window. */
  lemma OwnWriteIsRecognised(
    window: map<string, int>, h: seq<Timed>, at: int, later: seq<Timed>, ref: Ref, hash: Hash, now: int, seconds: int)
    requires
      var all := h + [Timed(at, Record(ref, hash))] + later;
      Monotone(all) && forall i :: 0 <= i < |all| ==> all[i].now <= now
    requires forall i :: 0 <= i < |later| ==> Elsewhere(later[i].call, ref, hash)
    requires LastsFor(window, ref.connector, seconds)
    ensures VerdictOn(LogAfter(window, h + [Timed(at, Record(ref, hash))] + later), ref, hash, now) == Echo
       <==> now < at + seconds
  {
    EchoIff(window, h, Timed(at, Record(ref, hash)), later, ref, hash, now, seconds);
  }

  /** The tag is used up by the first answer: another change with the same payload is somebody else's, however
      soon it comes, until the engine writes that payload again. */
  lemma SecondChangeIsNoEcho(
    window: map<string, int>, h: seq<Timed>, at: int, later: seq<Timed>, ref: Ref, hash: Hash, now: int, seconds: int)
    requires
      var all := h + [Timed(at, Classify(ref, hash))] + later;
      Monotone(all) && forall i :: 0 <= i < |all| ==> all[i].now <= now
    requires forall i :: 0 <= i < |later| ==> Elsewhere(later[i].call, ref, hash)
    requires LastsFor(window, ref.connector, seconds)
    ensures VerdictOn(LogAfter(window, h + [Timed(at, Classify(ref, hash))] + later), ref, hash, now) != Echo
  {
    EchoIff(window, h, Timed(at, Classify(ref, hash)), later, ref, hash, now, seconds);
  }

  lemma {:induction false} LastWriteOf(h: seq<Timed>, ref: Ref)
    requires Monotone(h)
    ensures LastWrite(h, ref).Some? <==> exists i :: 0 <= i < |h| && h[i].call.Record? && h[i].call.ref == ref
    ensures LastWrite(h, ref).Some? ==>
      exists i :: 0 <= i < |h| && h[i].call.Record? && h[i].call.ref == ref && h[i].now == LastWrite(h, ref).value
    ensures forall i :: 0 <= i < |h| && h[i].call.Record? && h[i].call.ref == ref ==>
      h[i].now <= LastWrite(h, ref).value
  {
    if |h| > 0 { LastWriteOf(h[..|h| - 1], ref); }
  }

  /** A change that is no echo is somebody's edit of a record the engine wrote within the window, or of one it did
      not. */
  lemma ForeignIff(window: map<string, int>, h: seq<Timed>, ref: Ref, hash: Hash, now: int, seconds: int)
    requires Monotone(h) && (|h| > 0 ==> h[|h| - 1].now <= now) && LastsFor(window, ref.connector, seconds)
    requires VerdictOn(LogAfter(window, h), ref, hash, now) != Echo
    ensures VerdictOn(LogAfter(window, h), ref, hash, now) == NearMiss
       <==> exists i :: 0 <= i < |h| && h[i].call.Record? && h[i].call.ref == ref && now < h[i].now + seconds
  {
    ClassifyFollowsHistory(window, h, ref, hash, now);
    LastWriteOf(h, ref);
  }

  // ---- echoes never outnumber writes -------------------------------------------------------------------

  function Records(h: seq<Timed>, ref: Ref, hash: Hash): nat
  {
    if |h| == 0 then 0
    else Records(h[..|h| - 1], ref, hash) + if h[|h| - 1].call == Record(ref, hash) then 1 else 0
  }

  function Echoes(window: map<string, int>, h: seq<Timed>, ref: Ref, hash: Hash): nat
  {
    if |h| == 0 then 0
    else
      var init, e := h[..|h| - 1], h[|h| - 1];
      Echoes(window, init, ref, hash)
      + if e.call == Classify(ref, hash) && VerdictOn(LogAfter(window, init), ref, hash, e.now) == Echo then 1 else 0
  }

  /** A pending entry is a record not yet answered: echoes, plus one while an entry is on file, are at
      most the records, for every payload and every history. */
  lemma {:induction false} EchoesNeverOutnumberRecords(window: map<string, int>, h: seq<Timed>, ref: Ref, hash: Hash)
    ensures Echoes(window, h, ref, hash) + (if Payload(ref, hash) in LogAfter(window, h) then 1 else 0)
         <= Records(h, ref, hash)
  {
    if |h| > 0 { EchoesNeverOutnumberRecords(window, h[..|h| - 1], ref, hash); }
  }
}
