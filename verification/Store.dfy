/** The expiring key-value store: shared vocabulary, what a reader may see, and the
    in-memory implementation every other store is measured against
    (internal/store/store.go, internal/store/mem.go). */
module Store {
  import opened Wrappers
  import opened Ordering
  import Digest

  newtype byte = x: int | 0 <= x < 256

  datatype Key = Key(coll: string, name: string)

  /** Go's zero time is `Never`; every other instant is its Unix time in nanoseconds. */
  datatype Expiry = Never | At(nanos: int)

  datatype Entry = Entry(value: seq<byte>, expiresAt: Expiry)

  type Data = map<Key, Entry>

  datatype Error = ErrClosed

  type Reply<+T> = Result<T, Error>

  predicate Live(e: Expiry, now: int) { e.Never? || now < e.nanos }

  function EntryAt(d: Data, k: Key, now: int): Option<Entry>
  {
    if k in d && Live(d[k].expiresAt, now) then Some(d[k]) else None
  }

  function ValueOf(e: Option<Entry>): Option<seq<byte>>
  {
    if e.Some? then Some(e.value.value) else None
  }

  /** What a reader sees of one collection. */
  function Visible(d: Data, coll: string, now: int): map<string, Entry>
  {
    map k | k in d.Keys && k.coll == coll && Live(d[k].expiresAt, now) :: k.name := d[k]
  }

  function Swept(d: Data, now: int): Data
  {
    map k | k in d && Live(d[k].expiresAt, now) :: d[k]
  }

  // ---- listings: a view's entries in key order, cut to a limit --------------------

  datatype Listed = Listed(key: string, entry: Entry)

  ghost predicate SortedKeys(view: map<string, Entry>, ks: seq<string>)
  {
    Sorted(Digest.Self, ks) && multiset(ks) == multiset(view.Keys)
  }

  function Cut(ks: seq<string>, limit: int): seq<string>
  {
    if limit > 0 && |ks| > limit then ks[..limit] else ks
  }

  function Rows(view: map<string, Entry>, ks: seq<string>): seq<Listed>
    requires forall i :: 0 <= i < |ks| ==> ks[i] in view
  {
    seq(|ks|, i requires 0 <= i < |ks| => Listed(ks[i], view[ks[i]]))
  }

  lemma KeysInView(view: map<string, Entry>, ks: seq<string>)
    requires multiset(ks) == multiset(view.Keys)
    ensures forall i :: 0 <= i < |ks| ==> ks[i] in view
    ensures |ks| == |view|
  {
    forall i | 0 <= i < |ks| ensures ks[i] in view { assert ks[i] in multiset(ks); }
    assert |ks| == |multiset(ks)| == |multiset(view.Keys)| == |view.Keys|;
  }

  ghost predicate ListedBy(view: map<string, Entry>, limit: int, out: seq<Listed>, ks: seq<string>)
  {
    && SortedKeys(view, ks)
    && (forall i :: 0 <= i < |ks| ==> ks[i] in view)
    && out == Rows(view, Cut(ks, limit))
  }

  ghost predicate IsListing(view: map<string, Entry>, limit: int, out: seq<Listed>)
  {
    exists ks :: ListedBy(view, limit, out, ks)
  }

  /** A view has one listing, so stores with equal views list alike. */
  lemma ListingUnique(view: map<string, Entry>, limit: int, a: seq<Listed>, b: seq<Listed>)
    requires IsListing(view, limit, a) && IsListing(view, limit, b)
    ensures a == b
  {
    var ks :| ListedBy(view, limit, a, ks);
    var ls :| ListedBy(view, limit, b, ls);
    assert ks == ls by { SortedUnique(Digest.Self, ks, ls); }
  }

  /** What a listing holds: entries of the view, in strictly ascending order of their keys; all of them, or as
      many as a smaller positive limit allows, and then every key left out comes after those listed. */
  ghost predicate InOrder(view: map<string, Entry>, limit: int, out: seq<Listed>)
  {
    && |out| == (if 0 < limit < |view| then limit else |view|)
    && (forall i :: 0 <= i < |out| ==> out[i].key in view && out[i].entry == view[out[i].key])
    && (forall i, j :: 0 <= i < j < |out| ==> Less(out[i].key, out[j].key))
    && (forall k :: k in view && (forall i :: 0 <= i < |out| ==> out[i].key != k) ==>
          0 < limit < |view| && forall i :: 0 <= i < |out| ==> Less(out[i].key, k))
  }

  lemma ListingInOrder(view: map<string, Entry>, limit: int, out: seq<Listed>)
    requires IsListing(view, limit, out)
    ensures InOrder(view, limit, out)
  {
    var ks :| ListedBy(view, limit, out, ks);
    KeysInView(view, ks);
    forall i, j | 0 <= i < j < |ks| ensures Less(ks[i], ks[j]) { KeysAscend(view, ks, i, j); }
    assert forall i :: 0 <= i < |out| ==> out[i] == Listed(ks[i], view[ks[i]]);
    forall k | k in view && forall i :: 0 <= i < |out| ==> out[i].key != k
      ensures 0 < limit < |view| && forall i :: 0 <= i < |out| ==> Less(out[i].key, k)
    {
      assert k in multiset(ks);
      var n :| 0 <= n < |ks| && ks[n] == k;
      assert n >= |out|;
    }
  }

  lemma KeysAscend(view: map<string, Entry>, ks: seq<string>, i: nat, j: nat)
    requires SortedKeys(view, ks) && i < j < |ks|
    ensures Less(ks[i], ks[j])
  {
    LessTotal(ks[i], ks[j]);
    if ks[i] == ks[j] { TwiceCounted(ks, i, j); }
  }

  /** Collects the keys of a map in whatever order it yields them, then sorts. */
  method ListRows(view: map<string, Entry>, limit: int) returns (out: seq<Listed>)
    ensures IsListing(view, limit, out)
    ensures InOrder(view, limit, out)
  {
    var keys := KeysOf(view);
    var sorted := Sort(Digest.Self, keys);
    SortSorted(Digest.Self, keys);
    KeysInView(view, sorted);
    out := Rows(view, Cut(sorted, limit));
    assert ListedBy(view, limit, out, sorted);
    ListingInOrder(view, limit, out);
  }

  method KeysOf(view: map<string, Entry>) returns (keys: seq<string>)
    ensures multiset(keys) == multiset(view.Keys)
  {
    keys := [];
    var rest := view.Keys;
    while rest != {}
      invariant rest <= view.Keys
      invariant multiset(keys) == multiset(view.Keys - rest)
      decreases |rest|
    {
      var k :| k in rest;
      assert view.Keys - (rest - {k}) == (view.Keys - rest) + {k};
      keys := keys + [k];
      rest := rest - {k};
    }
    assert view.Keys - rest == view.Keys;
  }

  /** The listing of a collection on the stored data: entries that do not expire or expire later than `now`, in
      ascending order, and without a limit all of them. */
  ghost predicate ListsUnexpired(d: Data, coll: string, limit: int, now: int, out: seq<Listed>)
  {
    && (forall i, j :: 0 <= i < j < |out| ==> Less(out[i].key, out[j].key))
    && (limit > 0 ==> |out| <= limit)
    && (forall row :: row in out ==>
          && Key(coll, row.key) in d && d[Key(coll, row.key)] == row.entry
          && (row.entry.expiresAt.Never? || now < row.entry.expiresAt.nanos))
    && (forall k :: k in d && k.coll == coll && (d[k].expiresAt.Never? || now < d[k].expiresAt.nanos) ==>
          || Listed(k.name, d[k]) in out
          || (|out| == limit && forall row :: row in out ==> Less(row.key, k.name)))
  }

  lemma VisibleMembers(d: Data, coll: string, now: int, name: string)
    ensures name in Visible(d, coll, now) <==> EntryAt(d, Key(coll, name), now).Some?
    ensures name in Visible(d, coll, now) ==> EntryAt(d, Key(coll, name), now) == Some(Visible(d, coll, now)[name])
  {
    if name in Visible(d, coll, now) {
      var k :| k in d.Keys && k.coll == coll && Live(d[k].expiresAt, now) && k.name == name;
      assert k == Key(coll, name);
    }
  }

  lemma OrderedListsUnexpired(d: Data, coll: string, limit: int, now: int, out: seq<Listed>)
    requires InOrder(Visible(d, coll, now), limit, out)
    ensures ListsUnexpired(d, coll, limit, now, out)
  {
    var view := Visible(d, coll, now);
    forall row | row in out
      ensures Key(coll, row.key) in d && d[Key(coll, row.key)] == row.entry
      ensures row.entry.expiresAt.Never? || now < row.entry.expiresAt.nanos
    {
      VisibleMembers(d, coll, now, row.key);
    }
    forall k | k in d && k.coll == coll && (d[k].expiresAt.Never? || now < d[k].expiresAt.nanos)
      ensures Listed(k.name, d[k]) in out
           || (|out| == limit && forall row :: row in out ==> Less(row.key, k.name))
    {
      VisibleMembers(d, coll, now, k.name);
      assert k == Key(coll, k.name);
      if i :| 0 <= i < |out| && out[i].key == k.name { assert out[i] == Listed(k.name, d[k]); }
    }
  }

  lemma VisibleSize(d: Data, coll: string, now: int)
    ensures |Visible(d, coll, now)|
         == |set k | k in d && k.coll == coll && (d[k].expiresAt.Never? || now < d[k].expiresAt.nanos)|
  {
    var view := Visible(d, coll, now);
    var keys := set k | k in d && k.coll == coll && (d[k].expiresAt.Never? || now < d[k].expiresAt.nanos);
    forall n: string ensures n in view.Keys <==> Key(coll, n) in keys { VisibleMembers(d, coll, now, n); }
    NamesOfKeys(coll, view.Keys, keys);
  }

  lemma {:induction false} NamesOfKeys(coll: string, names: set<string>, keys: set<Key>)
    requires forall k :: k in keys ==> k.coll == coll
    requires forall n: string :: n in names <==> Key(coll, n) in keys
    ensures |names| == |keys|
    decreases names
  {
    assert forall k :: k in keys ==> k == Key(coll, k.name);
    if names == {} {
      assert keys == {};
    } else {
      var n :| n in names;
      NamesOfKeys(coll, names - {n}, keys - {Key(coll, n)});
    }
  }

  // ---- the in-memory store ---------------------------------------------------------

  class Mem {
    var data: Data
    var closed: bool

    constructor ()
      ensures data == map[] && !closed
    {
      data := map[];
      closed := false;
    }

    method Get(k: Key, now: int) returns (r: Reply<Option<seq<byte>>>)
      ensures closed ==> r == Err(ErrClosed)
      ensures !closed ==> r == Ok(ValueOf(EntryAt(data, k, now)))
      ensures forall v :: r == Ok(Some(v)) <==>
        !closed && k in data && data[k].value == v && (data[k].expiresAt.Never? || now < data[k].expiresAt.nanos)
    {
      if closed { return Err(ErrClosed); }
      if k !in data || !Live(data[k].expiresAt, now) { return Ok(None); }
      r := Ok(Some(data[k].value));
    }

    method Put(k: Key, value: seq<byte>, expiresAt: Expiry) returns (r: Reply<()>)
      modifies this`data
      ensures closed ==> r == Err(ErrClosed) && data == old(data)
      ensures !closed ==> r == Ok(()) && data == old(data)[k := Entry(value, expiresAt)]
    {
      if closed { return Err(ErrClosed); }
      data := data[k := Entry(value, expiresAt)];
      r := Ok(());
    }

    method Delete(k: Key) returns (r: Reply<()>)
      modifies this`data
      ensures closed ==> r == Err(ErrClosed) && data == old(data)
      ensures !closed ==> r == Ok(()) && data == old(data) - {k}
    {
      if closed { return Err(ErrClosed); }
      data := data - {k};
      r := Ok(());
    }

    /** Removes the entry even when it has expired, and reports it only when it has not. */
    method Take(k: Key, now: int) returns (r: Reply<Option<seq<byte>>>)
      modifies this`data
      ensures closed ==> r == Err(ErrClosed) && data == old(data)
      ensures !closed ==> r == Ok(ValueOf(EntryAt(old(data), k, now))) && data == old(data) - {k}
      ensures forall v :: r == Ok(Some(v)) <==>
        && !closed && k in old(data) && old(data)[k].value == v
        && (old(data)[k].expiresAt.Never? || now < old(data)[k].expiresAt.nanos)
    {
      if closed { return Err(ErrClosed); }
      if k !in data { return Ok(None); }
      var e := data[k];
      data := data - {k};
      if !Live(e.expiresAt, now) { return Ok(None); }
      r := Ok(Some(e.value));
    }

    method List(coll: string, limit: int, now: int) returns (r: Reply<seq<Listed>>)
      ensures closed ==> r == Err(ErrClosed)
      ensures !closed ==> r.Ok? && IsListing(Visible(data, coll, now), limit, r.value)
      ensures !closed ==> r.Ok? && ListsUnexpired(data, coll, limit, now, r.value)
    {
      if closed { return Err(ErrClosed); }
      var out := ListRows(Visible(data, coll, now), limit);
      OrderedListsUnexpired(data, coll, limit, now, out);
      r := Ok(out);
    }

    method Len(coll: string, now: int) returns (r: Reply<nat>)
      ensures closed ==> r == Err(ErrClosed)
      ensures !closed ==> r == Ok(|Visible(data, coll, now)|)
      ensures !closed ==>
        r == Ok(|set k | k in data && k.coll == coll && (data[k].expiresAt.Never? || now < data[k].expiresAt.nanos)|)
    {
      if closed { return Err(ErrClosed); }
      VisibleSize(data, coll, now);
      r := Ok(|Visible(data, coll, now)|);
    }

    method Sweep(now: int) returns (r: Reply<nat>)
      modifies this`data
      ensures closed ==> r == Err(ErrClosed) && data == old(data)
      ensures !closed ==> data == Swept(old(data), now) && r == Ok(|old(data)| - |data|)
      ensures forall k :: k in data <==>
        k in old(data) && (closed || old(data)[k].expiresAt.Never? || now < old(data)[k].expiresAt.nanos)
      ensures forall k :: k in data ==> data[k] == old(data)[k]
    {
      if closed { return Err(ErrClosed); }
      var rest, dropped := data.Keys, 0;
      while rest != {}
        invariant rest <= data.Keys <= old(data).Keys
        invariant forall k :: k in data ==> data[k] == old(data)[k]
        invariant forall k :: k in data && k !in rest ==> Live(data[k].expiresAt, now)
        invariant forall k :: k in old(data) && k !in data ==> !Live(old(data)[k].expiresAt, now)
        invariant |data.Keys| + dropped == |old(data).Keys|
        decreases |rest|
      {
        var k :| k in rest;
        rest := rest - {k};
        if !Live(data[k].expiresAt, now) {
          assert (data - {k}).Keys == data.Keys - {k};
          data := data - {k};
          dropped := dropped + 1;
        }
      }
      assert data == Swept(old(data), now);
      assert |data| == |data.Keys| && |old(data)| == |old(data).Keys|;
      r := Ok(dropped);
    }

    method Close()
      modifies this
      ensures closed && data == map[]
    {
      closed := true;
      data := map[];
    }
  }
}
