/** The replay cache that makes writes safe to repeat (internal/idem/idem.go). Time is in seconds. */
module Idem {
  import opened Wrappers
  import opened Model

  const DEFAULT_TTL: int := 3600

  /** What is remembered about a key: an intent, or the record its write produced. */
  datatype Mark = Mark(inFlight: bool, remoteID: string, expires: int)

  type Marks = map<Hash, Mark>

  datatype Decision = Proceed | Replayed(remoteID: string) | Recheck

  function Live(marks: Marks, key: Hash, now: int): Option<Mark>
  {
    if key in marks && now < marks[key].expires then Some(marks[key]) else None
  }

  function Decide(marks: Marks, key: Hash, now: int): Decision
  {
    match Live(marks, key, now)
    case None => Proceed
    case Some(m) => if m.inFlight then Recheck else Replayed(m.remoteID)
  }

  function Begun(marks: Marks, key: Hash, now: int, ttl: int): Marks
  {
    if Decide(marks, key, now).Proceed? then marks[key := Mark(true, "", now + ttl)] else marks
  }

  function Committed(marks: Marks, key: Hash, remoteID: string, now: int, ttl: int): Marks
  {
    marks[key := Mark(false, remoteID, now + ttl)]
  }

  function Abandoned(marks: Marks, key: Hash): Marks { marks - {key} }

  /** A committed result is replayed, and an intent rechecked, for exactly one lifetime; after that, or once it is
      abandoned, the key is free. A begin that does not proceed changes nothing, and no other key is touched. */
  lemma MarksLastOneLifetime(marks: Marks, key: Hash, remoteID: string, at: int, ttl: int, now: int, other: Hash)
    requires other != key
    ensures Decide(Committed(marks, key, remoteID, at, ttl), key, now)
         == if now < at + ttl then Replayed(remoteID) else Proceed
    ensures Decide(marks, key, at).Proceed? ==>
      Decide(Begun(marks, key, at, ttl), key, now) == if now < at + ttl then Recheck else Proceed
    ensures !Decide(marks, key, at).Proceed? ==> Begun(marks, key, at, ttl) == marks
    ensures Decide(Abandoned(marks, key), key, now) == Proceed
    ensures Decide(Committed(marks, key, remoteID, at, ttl), other, now) == Decide(marks, other, now)
    ensures Decide(Begun(marks, key, at, ttl), other, now) == Decide(marks, other, now)
    ensures Decide(Abandoned(marks, key), other, now) == Decide(marks, other, now)
  {}

  class Cache {
    const ttl: int
    var marks: Marks

    constructor (ttl: int)
      ensures marks == map[] && this.ttl == if ttl > 0 then ttl else 3600
    {
      this.ttl := if ttl <= 0 then DEFAULT_TTL else ttl;
      marks := map[];
    }

    /** Records the intent before the call, unless an earlier attempt is on record. */
    method Begin(key: Hash, now: int) returns (d: Decision)
      modifies this`marks
      ensures d == Decide(old(marks), key, now)
      ensures marks == Begun(old(marks), key, now, ttl)
      ensures forall id :: d == Replayed(id) <==>
        && key in old(marks) && now < old(marks)[key].expires
        && !old(marks)[key].inFlight && old(marks)[key].remoteID == id
      ensures d == Recheck <==> key in old(marks) && now < old(marks)[key].expires && old(marks)[key].inFlight
      ensures marks == if d == Proceed then old(marks)[key := Mark(true, "", now + ttl)] else old(marks)
    {
      var prev := Live(marks, key, now);
      if prev.Some? && !prev.value.inFlight { return Replayed(prev.value.remoteID); }
      if prev.Some? { return Recheck; }
      marks := marks[key := Mark(true, "", now + ttl)];
      d := Proceed;
    }

    method Commit(key: Hash, remoteID: string, now: int)
      modifies this`marks
      ensures marks == Committed(old(marks), key, remoteID, now, ttl)
    {
      marks := marks[key := Mark(false, remoteID, now + ttl)];
    }

    method Abandon(key: Hash)
      modifies this`marks
      ensures marks == Abandoned(old(marks), key)
    {
      marks := marks - {key};
    }

    method Lookup(key: Hash, now: int) returns (r: Option<string>)
      ensures r.Some? <==> Decide(marks, key, now).Replayed?
      ensures r.Some? ==> Decide(marks, key, now) == Replayed(r.value)
      ensures forall id :: r == Some(id) <==>
        key in marks && now < marks[key].expires && !marks[key].inFlight && marks[key].remoteID == id
    {
      var prev := Live(marks, key, now);
      if prev.None? || prev.value.inFlight { return None; }
      r := Some(prev.value.remoteID);
    }
  }
}
