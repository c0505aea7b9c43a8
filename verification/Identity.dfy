/** Which record on one peer is the same thing as a record on the other: the link table, the
    deterministic key index, and the decision made from them (internal/identity/identity.go). */
module Identity {
  import opened Wrappers
  import opened Ordering
  import opened Model

  datatype IndexKey = IndexKey(connector: string, kind: string, name: string, rendered: string)

  datatype Link = Link(left: Ref, right: Ref)

  datatype OnAmbiguous = AskForReview | CreateAnyway | SkipIt

  datatype Resolution =
    | Linked(peer: Ref)
    | Matched(peer: Ref)
    | Create
    | Review
    | Skip

  function PeerOf(l: Link, r: Ref): Option<Ref>
  {
    if r == l.left then Some(l.right) else if r == l.right then Some(l.left) else None
  }

  /** The text a key value is compared by. A number and the string of its digits compare equal. */
  function Sprint(v: Value): string
  {
    match v
    case Null => "<nil>"
    case Str(s) => s
    case Bool(b) => if b then "true" else "false"
    case Time(text) => text
    case Number(text) => text
    case Other(text) => text
  }

  predicate IsEmpty(v: Value) { v == Null || v == Str("") }

  /** The keys a record holds: one per configured name it has a non-empty value for. */
  function HeldKeys(keys: seq<string>, connector: string, kind: string, canonical: Fields): set<IndexKey>
  {
    set n | n in keys && n in canonical && !IsEmpty(canonical[n]) ::
      IndexKey(connector, kind, n, Sprint(canonical[n]))
  }

  // ---- the specification: a full scan over what was last indexed -----------------------------

  type Seen = map<Ref, Fields>

  /** Records of the peer that share some held key with the given values. */
  function Matches(keys: seq<string>, kind: string, seen: Seen, peer: string, canonical: Fields): set<Ref>
  {
    set r | r in seen && r.connector == peer && r.kind == kind
            && HeldKeys(keys, peer, kind, seen[r]) * HeldKeys(keys, peer, kind, canonical) != {}
  }

  // ---- the same, on the values themselves ------------------------------------------------------

  /** The value reads as this text, whatever its kind. */
  predicate Reads(v: Value, text: string)
  {
    || v in {Str(text), Time(text), Number(text), Other(text)}
    || (v == Bool(true) && text == "true") || (v == Bool(false) && text == "false")
  }

  /** Two values identify the same thing: neither is null or the empty string, and they read alike. */
  ghost predicate SameKey(a: Value, b: Value)
  {
    a != Str("") && b != Str("") && exists text :: Reads(a, text) && Reads(b, text)
  }

  /** Two records hold a key in common. */
  ghost predicate ShareKey(keys: seq<string>, a: Fields, b: Fields)
  {
    exists n :: n in keys && n in a && n in b && SameKey(a[n], b[n])
  }

  lemma SprintReads(v: Value)
    ensures !IsEmpty(v) ==> v != Null && v != Str("") && forall text :: Reads(v, text) <==> text == Sprint(v)
    ensures IsEmpty(v) <==> v == Null || v == Str("")
    ensures v == Null ==> forall text :: !Reads(v, text)
  {}

  /** A record is found if and only if it is on the peer, of the kind, and holds some configured key in common. */
  lemma MatchIff(keys: seq<string>, kind: string, seen: Seen, peer: string, canonical: Fields, r: Ref)
    ensures r in Matches(keys, kind, seen, peer, canonical)
       <==> r in seen && r.connector == peer && r.kind == kind && ShareKey(keys, seen[r], canonical)
  {
    if r in seen && r.connector == peer && r.kind == kind {
      var a, b := HeldKeys(keys, peer, kind, seen[r]), HeldKeys(keys, peer, kind, canonical);
      if k: IndexKey :| k in a * b {
        var n := k.name;
        SprintReads(seen[r][n]);
        SprintReads(canonical[n]);
        assert Reads(seen[r][n], k.rendered) && Reads(canonical[n], k.rendered);
        assert SameKey(seen[r][n], canonical[n]);
      }
      if n :| n in keys && n in seen[r] && n in canonical && SameKey(seen[r][n], canonical[n]) {
        SprintReads(seen[r][n]);
        SprintReads(canonical[n]);
        assert IndexKey(peer, kind, n, Sprint(canonical[n])) in a * b;
      }
    }
  }

  /** Strings identify the same thing exactly when they are equal and not empty; a null identifies nothing; and
      beyond equal values only text that reads alike does, such as a number and the string of its digits. */
  lemma SameKeyCases(a: Value, b: Value)
    ensures a.Str? && b.Str? ==> (SameKey(a, b) <==> a.s == b.s && a.s != "")
    ensures a == Null || b == Null || a == Str("") || b == Str("") ==> !SameKey(a, b)
    ensures a.Number? && b.Str? ==> (SameKey(a, b) <==> a.text == b.s && b.s != "")
    ensures a.Bool? && b.Str? ==> (SameKey(a, b) <==> (a.b && b.s == "true") || (!a.b && b.s == "false"))
    ensures a.Number? && b.Number? ==> (SameKey(a, b) <==> a.text == b.text)
    ensures a.Bool? && b.Bool? ==> (SameKey(a, b) <==> a.b == b.b)
    ensures SameKey(a, b) <==> SameKey(b, a)
  {
    SprintReads(a);
    SprintReads(b);
    if !IsEmpty(a) && !IsEmpty(b) {
      assert Reads(a, Sprint(a)) && Reads(b, Sprint(b));
      assert SameKey(a, b) <==> Sprint(a) == Sprint(b);
    }
  }

  ghost predicate OnlyStrings(keys: seq<string>, f: Fields) { forall n :: n in keys && n in f ==> f[n].Str? }

  /** Two records whose keys are all strings match if and only if some key has the same non-empty string in both. */
  lemma StringsMatchIff(keys: seq<string>, kind: string, seen: Seen, peer: string, canonical: Fields, r: Ref)
    requires r in seen && r.connector == peer && r.kind == kind
    requires OnlyStrings(keys, seen[r]) && OnlyStrings(keys, canonical)
    ensures r in Matches(keys, kind, seen, peer, canonical)
       <==> exists n :: n in keys && n in seen[r] && n in canonical && seen[r][n] == canonical[n] != Str("")
  {
    MatchIff(keys, kind, seen, peer, canonical, r);
    forall n | n in keys && n in seen[r] && n in canonical
      ensures SameKey(seen[r][n], canonical[n]) <==> seen[r][n] == canonical[n] != Str("")
    {
      SameKeyCases(seen[r][n], canonical[n]);
    }
  }

  /** A link answers first; then exactly one match; otherwise the configured policy. */
  ghost function Decide(onAmbiguous: OnAmbiguous, links: map<Ref, Link>, from: Ref, found: set<Ref>): Resolution
  {
    if from in links && PeerOf(links[from], from).Some? then Linked(PeerOf(links[from], from).value)
    else if |found| == 1 then (var r :| r in found; Matched(r))
    else if |found| == 0 then (if onAmbiguous == SkipIt then Skip else Create)
    else match onAmbiguous
      case CreateAnyway => Create
      case SkipIt => Skip
      case AskForReview => Review
  }

  // ---- entries: ordered, duplicate-free lists of the records holding one key --------------------

  type Entries = map<IndexKey, seq<Ref>>

  function RemoteOf(r: Ref): string { r.remoteID }

  predicate NoDuplicates<T(==)>(s: seq<T>) { forall i, j :: 0 <= i < j < |s| ==> s[i] != s[j] }

  ghost predicate EntryOk(k: IndexKey, refs: seq<Ref>)
  {
    && |refs| > 0 && NoDuplicates(refs) && Sorted(RemoteOf, refs)
    && forall r :: r in refs ==> r.connector == k.connector && r.kind == k.kind
  }

  ghost predicate EntriesOk(entries: Entries) { forall k :: k in entries ==> EntryOk(k, entries[k]) }

  predicate Holds(entries: Entries, k: IndexKey, r: Ref) { k in entries && r in entries[k] }

  function Load(entries: Entries, k: IndexKey): seq<Ref> { if k in entries then entries[k] else [] }

  function Without(refs: seq<Ref>, ref: Ref): seq<Ref>
  {
    if |refs| == 0 then []
    else if refs[0] == ref then Without(refs[1..], ref)
    else [refs[0]] + Without(refs[1..], ref)
  }

  lemma {:induction false} WithoutMembers(refs: seq<Ref>, ref: Ref, x: Ref)
    ensures x in Without(refs, ref) <==> x in refs && x != ref
  {
    if |refs| > 0 {
      WithoutMembers(refs[1..], ref, x);
      assert refs == [refs[0]] + refs[1..];
    }
  }

  lemma {:induction false} WithoutKeepsOrder(refs: seq<Ref>, ref: Ref)
    requires NoDuplicates(refs) && Sorted(RemoteOf, refs)
    ensures NoDuplicates(Without(refs, ref)) && Sorted(RemoteOf, Without(refs, ref))
  {
    if |refs| > 0 {
      var rest := Without(refs[1..], ref);
      WithoutKeepsOrder(refs[1..], ref);
      forall i | 0 <= i < |rest|
        ensures rest[i] != refs[0] && !Less(RemoteOf(rest[i]), RemoteOf(refs[0]))
      {
        WithoutMembers(refs[1..], ref, rest[i]);
        var j :| 0 <= j < |refs[1..]| && refs[1..][j] == rest[i];
        assert refs[j + 1] == rest[i];
      }
    }
  }

  lemma SortKeepsSet(refs: seq<Ref>)
    requires NoDuplicates(refs)
    ensures NoDuplicates(Sort(RemoteOf, refs))
    ensures forall x :: x in Sort(RemoteOf, refs) <==> x in refs
  {
    var s := Sort(RemoteOf, refs);
    forall x: Ref
      ensures x in s <==> x in refs
    {
      assert x in s <==> x in multiset(s);
      assert x in refs <==> x in multiset(refs);
    }
    forall i, j | 0 <= i < j < |s|
      ensures s[i] != s[j]
    {
      OnceCounted(refs, s[i]);
      if s[i] == s[j] { TwiceCounted(s, i, j); }
    }
  }

  lemma GrownEntry(k: IndexKey, refs: seq<Ref>, ref: Ref)
    requires NoDuplicates(refs) && ref !in refs && ref.connector == k.connector && ref.kind == k.kind
    requires forall r :: r in refs ==> r.connector == k.connector && r.kind == k.kind
    ensures EntryOk(k, Sort(RemoteOf, refs + [ref]))
    ensures forall r :: r in Sort(RemoteOf, refs + [ref]) <==> r in refs || r == ref
  {
    SortKeepsSet(refs + [ref]);
    SortSorted(RemoteOf, refs + [ref]);
  }

  lemma HeadNotInTail(s: seq<Ref>)
    requires NoDuplicates(s) && |s| > 0
    ensures s[0] !in s[1..]
  {}

  lemma {:induction false} OnceCounted(s: seq<Ref>, x: Ref)
    requires NoDuplicates(s)
    ensures multiset(s)[x] <= 1
  {
    if |s| > 0 {
      var rest := s[1..];
      assert s == [s[0]] + rest;
      OnceCounted(rest, x);
      HeadNotInTail(s);
      assert x in rest <==> x in multiset(rest);
    }
  }

  function HeldBy(keys: seq<string>, seen: Seen, r: Ref): set<IndexKey>
  {
    if r in seen then HeldKeys(keys, r.connector, r.kind, seen[r]) else {}
  }

  /** Key entries and owner entries are two views of the same relation, the one a full scan of
      the last-indexed values gives. */
  ghost predicate Agree(keys: seq<string>, entries: Entries, owners: map<Ref, seq<IndexKey>>, seen: Seen)
  {
    && (forall k, r :: Holds(entries, k, r) <==> k in HeldBy(keys, seen, r))
    && (forall r :: r in owners ==> forall k :: k in owners[r] <==> k in HeldBy(keys, seen, r))
    && (forall r :: r !in owners ==> HeldBy(keys, seen, r) == {})
  }

  /** The stored text of a key, which the owner entry is sorted by. */
  function KeyText(k: IndexKey): string { k.connector + "\0" + k.kind + "\0" + k.name + "\0" + k.rendered }

  lemma SameKeys(held: seq<IndexKey>)
    ensures forall k :: k in Sort(KeyText, held) <==> k in held
  {
    forall k: IndexKey
      ensures k in Sort(KeyText, held) <==> k in held
    {
      assert k in multiset(Sort(KeyText, held)) <==> k in multiset(held);
    }
  }

  lemma AgreeAfterRelease(
    keys: seq<string>, was: Entries, entries: Entries, owners: map<Ref, seq<IndexKey>>, seen: Seen, ref: Ref)
    requires Agree(keys, was, owners, seen)
    requires forall k, r ::
      Holds(entries, k, r) <==> Holds(was, k, r) && !(r == ref && ref in owners && k in owners[ref])
    ensures Agree(keys, entries, owners - {ref}, seen - {ref})
  {}

  lemma AgreeAfterIndex(
    keys: seq<string>, was: Entries, entries: Entries, owners: map<Ref, seq<IndexKey>>, seen: Seen,
    ref: Ref, canonical: Fields, held: seq<IndexKey>)
    requires Agree(keys, was, owners, seen) && ref !in owners && ref !in seen
    requires forall k :: k in held <==> k in HeldKeys(keys, ref.connector, ref.kind, canonical)
    requires forall k, r :: Holds(entries, k, r) <==> Holds(was, k, r) || (r == ref && k in held)
    ensures Agree(keys, entries, if |held| > 0 then owners[ref := held] else owners, seen[ref := canonical])
  {}

  // ---- the resolver -------------------------------------------------------------------------------

  class Resolver {
    const kind: string
    const keys: seq<string>
    const onAmbiguous: OnAmbiguous
    var entries: Entries
    var owners: map<Ref, seq<IndexKey>>
    var links: map<Ref, Link>
    /** The values every record was last indexed with. */
    ghost var seen: Seen

    constructor (kind: string, keys: seq<string>, onAmbiguous: OnAmbiguous)
      ensures Valid() && seen == map[] && links == map[]
      ensures this.kind == kind && this.keys == keys && this.onAmbiguous == onAmbiguous
    {
      this.kind, this.keys, this.onAmbiguous := kind, keys, onAmbiguous;
      entries, owners, links, seen := map[], map[], map[], map[];
    }

    ghost predicate Valid()
      reads this
    {
      EntriesOk(entries) && Agree(keys, entries, owners, seen)
    }

    method AddRef(k: IndexKey, ref: Ref)
      requires EntriesOk(entries) && ref.connector == k.connector && ref.kind == k.kind
      modifies this`entries
      ensures EntriesOk(entries)
      ensures forall k', r :: Holds(entries, k', r) <==> Holds(old(entries), k', r) || (k' == k && r == ref)
    {
      var refs := Load(entries, k);
      if ref in refs { return; }
      GrownEntry(k, refs, ref);
      entries := entries[k := Sort(RemoteOf, refs + [ref])];
    }

    method RemoveRef(k: IndexKey, ref: Ref)
      requires EntriesOk(entries)
      modifies this`entries
      ensures EntriesOk(entries)
      ensures forall k', r :: Holds(entries, k', r) <==> Holds(old(entries), k', r) && !(k' == k && r == ref)
    {
      var refs := Load(entries, k);
      var kept := Without(refs, ref);
      forall x: Ref ensures x in kept <==> x in refs && x != ref { WithoutMembers(refs, ref, x); }
      assert NoDuplicates(refs) && Sorted(RemoteOf, refs);
      WithoutKeepsOrder(refs, ref);
      if |kept| == 0 {
        entries := entries - {k};
      } else {
        assert kept[0] in kept;
        entries := entries[k := kept];
      }
    }

    method ReleaseKeys(ref: Ref)
      requires Valid()
      modifies this`entries, this`owners, this`seen
      ensures Valid() && seen == old(seen) - {ref} && ref !in owners
    {
      if ref in owners {
        var held := owners[ref];
        for i := 0 to |held|
          modifies this`entries
          invariant EntriesOk(entries)
          invariant forall k, r :: Holds(entries, k, r) <==> Holds(old(entries), k, r) && !(r == ref && k in held[..i])
        {
          assert held[..i + 1] == held[..i] + [held[i]];
          RemoveRef(held[i], ref);
        }
        assert held[..|held|] == held;
      }
      AgreeAfterRelease(keys, old(entries), entries, owners, seen, ref);
      owners := owners - {ref};
      seen := seen - {ref};
    }

    /** Adds the record to the entry of every key its values give it, and lists those keys. */
    method FileUnder(ref: Ref, canonical: Fields) returns (held: seq<IndexKey>)
      requires EntriesOk(entries)
      modifies this`entries
      ensures EntriesOk(entries)
      ensures forall k :: k in held <==> k in HeldKeys(keys, ref.connector, ref.kind, canonical)
      ensures forall k, r :: Holds(entries, k, r) <==> Holds(old(entries), k, r) || (r == ref && k in held)
    {
      held := [];
      for i := 0 to |keys|
        invariant EntriesOk(entries)
        invariant forall k :: k in held <==> k in HeldKeys(keys[..i], ref.connector, ref.kind, canonical)
        invariant forall k, r :: Holds(entries, k, r) <==> Holds(old(entries), k, r) || (r == ref && k in held)
      {
        var name := keys[i];
        assert keys[..i + 1] == keys[..i] + [name];
        if name in canonical && !IsEmpty(canonical[name]) {
          var k := IndexKey(ref.connector, ref.kind, name, Sprint(canonical[name]));
          AddRef(k, ref);
          held := held + [k];
        }
      }
      assert keys[..|keys|] == keys;
    }

    /** Files a record under the keys its values give it, after releasing whatever it held. */
    method Index(ref: Ref, canonical: Fields)
      requires Valid()
      modifies this`entries, this`owners, this`seen
      ensures Valid() && seen == old(seen)[ref := canonical]
    {
      ReleaseKeys(ref);
      label released:
      var held := FileUnder(ref, canonical);
      SameKeys(held);
      held := Sort(KeyText, held);
      AgreeAfterIndex(keys, old@released(entries), entries, owners, seen, ref, canonical, held);
      seen := seen[ref := canonical];
      if |held| > 0 { owners := owners[ref := held]; }
    }

    method Deindex(ref: Ref)
      requires Valid()
      modifies this`entries, this`owners, this`seen
      ensures Valid() && seen == old(seen) - {ref}
    {
      ReleaseKeys(ref);
    }

    /** Every peer record sharing a key, once each, in order of remote identifier: what a scan of
        everything ever indexed would find. */
    method Candidates(peer: string, canonical: Fields) returns (out: seq<Ref>)
      requires Valid()
      ensures NoDuplicates(out) && Sorted(RemoteOf, out)
      ensures forall r :: r in out <==> r in Matches(keys, kind, seen, peer, canonical)
      ensures forall r :: r in out <==>
        r in seen && r.connector == peer && r.kind == kind && ShareKey(keys, seen[r], canonical)
    {
      out := [];
      for i := 0 to |keys|
        invariant NoDuplicates(out)
        invariant forall r ::
          r in out <==> exists k :: k in HeldKeys(keys[..i], peer, kind, canonical) && Holds(entries, k, r)
      {
        var name := keys[i];
        assert keys[..i + 1] == keys[..i] + [name];
        if name in canonical && !IsEmpty(canonical[name]) {
          var k := IndexKey(peer, kind, name, Sprint(canonical[name]));
          assert HeldKeys(keys[..i + 1], peer, kind, canonical) == HeldKeys(keys[..i], peer, kind, canonical) + {k};
          out := Gather(out, Load(entries, k));
        } else {
          assert HeldKeys(keys[..i + 1], peer, kind, canonical) == HeldKeys(keys[..i], peer, kind, canonical);
        }
      }
      assert keys[..|keys|] == keys;
      ScanAgrees(peer, canonical);
      SortKeepsSet(out);
      SortSorted(RemoteOf, out);
      out := Sort(RemoteOf, out);
      forall r: Ref { MatchIff(keys, kind, seen, peer, canonical, r); }
    }

    lemma ScanAgrees(peer: string, canonical: Fields)
      requires Valid()
      ensures forall r :: r in Matches(keys, kind, seen, peer, canonical)
                     <==> exists k :: k in HeldKeys(keys, peer, kind, canonical) && Holds(entries, k, r)
    {
      forall r: Ref
        ensures r in Matches(keys, kind, seen, peer, canonical)
           <==> exists k :: k in HeldKeys(keys, peer, kind, canonical) && Holds(entries, k, r)
      {
        if r in Matches(keys, kind, seen, peer, canonical) {
          var k :| k in HeldKeys(keys, peer, kind, seen[r]) * HeldKeys(keys, peer, kind, canonical);
          assert k in HeldBy(keys, seen, r) && Holds(entries, k, r);
        }
        if k :| k in HeldKeys(keys, peer, kind, canonical) && Holds(entries, k, r) {
          assert k in HeldBy(keys, seen, r) && r.connector == peer && r.kind == kind;
          assert k in HeldKeys(keys, peer, kind, seen[r]) * HeldKeys(keys, peer, kind, canonical);
        }
      }
    }

    method Gather(known: seq<Ref>, more: seq<Ref>) returns (out: seq<Ref>)
      requires NoDuplicates(known)
      ensures NoDuplicates(out)
      ensures forall r :: r in out <==> r in known || r in more
    {
      out := known;
      for i := 0 to |more|
        invariant NoDuplicates(out)
        invariant forall r :: r in out <==> r in known || r in more[..i]
      {
        assert more[..i + 1] == more[..i] + [more[i]];
        if more[i] !in out {
          out := out + [more[i]];
        }
      }
      assert more[..|more|] == more;
    }

    /** No record of the peer holds a key in common. */
    ghost predicate NobodyShares(peer: string, canonical: Fields)
      reads this
    {
      forall r :: r in seen && r.connector == peer && r.kind == kind ==> !ShareKey(keys, seen[r], canonical)
    }

    method Resolve(from: Ref, peer: string, canonical: Fields) returns (res: Resolution)
      requires Valid()
      ensures res == Decide(onAmbiguous, links, from, Matches(keys, kind, seen, peer, canonical))
      ensures res.Matched? ==> Matches(keys, kind, seen, peer, canonical) == {res.peer}
      ensures from !in links ==> (res.Matched? <==> |Matches(keys, kind, seen, peer, canonical)| == 1)
      ensures from in links && from == links[from].left ==> res == Linked(links[from].right)
      ensures from in links && from == links[from].right && from != links[from].left ==> res == Linked(links[from].left)
      ensures from !in links ==> !res.Linked?
      ensures res.Matched? ==> res.peer in seen && ShareKey(keys, seen[res.peer], canonical)
      ensures res.Matched? ==> forall r :: r in seen && r.connector == peer && r.kind == kind && r != res.peer ==>
        !ShareKey(keys, seen[r], canonical)
      ensures from !in links && NobodyShares(peer, canonical) ==> res == if onAmbiguous.SkipIt? then Skip else Create
      ensures res.Review? ==> onAmbiguous.AskForReview?
      ensures res.Skip? ==> onAmbiguous.SkipIt?
      ensures res.Create? ==> NobodyShares(peer, canonical) || onAmbiguous.CreateAnyway?
    {
      if from in links {
        var p := PeerOf(links[from], from);
        if p.Some? { return Linked(p.value); }
      }
      var found := Candidates(peer, canonical);
      ghost var all := Matches(keys, kind, seen, peer, canonical);
      forall r: Ref { MatchIff(keys, kind, seen, peer, canonical, r); }
      ListSize(found, all);
      if |found| == 1 {
        assert found[0] in found && found[0] in all;
        OnlyMember(all, found[0]);
        return Matched(found[0]);
      }
      if |found| == 0 {
        return if onAmbiguous == SkipIt then Skip else Create;
      }
      match onAmbiguous
      case CreateAnyway => res := Create;
      case SkipIt => res := Skip;
      case AskForReview => res := Review;
    }

    method PutLink(l: Link)
      modifies this`links
      ensures links == old(links)[l.left := l][l.right := l]
    {
      links := links[l.left := l];
      links := links[l.right := l];
    }

    method DeleteLink(l: Link)
      modifies this`links
      ensures links == old(links) - {l.left, l.right}
    {
      links := links - {l.left};
      links := links - {l.right};
    }
  }

  lemma OnlyMember(s: set<Ref>, x: Ref)
    requires |s| == 1 && x in s
    ensures s == {x}
  {
    assert |s - {x}| == 0;
  }

  lemma {:induction false} ListSize(s: seq<Ref>, all: set<Ref>)
    requires NoDuplicates(s) && forall r :: r in s <==> r in all
    ensures |s| == |all|
    decreases s
  {
    if |s| == 0 {
      assert all == {};
    } else {
      var rest := s[1..];
      assert s == [s[0]] + rest;
      HeadNotInTail(s);
      assert forall r :: r in rest <==> r in all - {s[0]};
      ListSize(rest, all - {s[0]});
    }
  }
}
