/** The crash-safe file store (internal/store/file.go): an append-only log of encoded
    operations, an atomically renamed snapshot, and recovery from whatever a crash left. */
module FileStore {
  import opened Wrappers
  import opened Store

  type int64 = x: int | InRange(x)

  predicate InRange(n: int) { -0x8000_0000_0000_0000 <= n < 0x8000_0000_0000_0000 }

  /** One log record. `e` is the expiry in nanoseconds, zero standing for none. */
  datatype Op = Op(key: Key, value: seq<byte>, e: int64, d: bool)

  const NEWLINE: byte := 10

  /** The line encoding, JSON in the program. */
  datatype Codec = Codec(enc: Op -> seq<byte>, dec: seq<byte> -> Option<Op>)

  ghost predicate Sound(c: Codec)
  {
    forall o: Op :: NEWLINE !in c.enc(o) && c.dec(c.enc(o)) == Some(o)
  }

  function Line(c: Codec, o: Op): seq<byte> { c.enc(o) + [NEWLINE] }

  function EncodeLog(c: Codec, ops: seq<Op>): seq<byte>
  {
    if |ops| == 0 then [] else Line(c, ops[0]) + EncodeLog(c, ops[1..])
  }

  // ---- folding operations into the live set ------------------------------------------

  function ExpiryOf(e: int64): Expiry { if e == 0 then Never else At(e) }

  /** `UnixNano` keeps the low 64 bits of an instant outside its range. */
  function Wrapped(n: int): int64
  {
    (n + 0x8000_0000_0000_0000) % 0x1_0000_0000_0000_0000 - 0x8000_0000_0000_0000
  }

  function Nanos(x: Expiry): int64 { if x.Never? then 0 else Wrapped(x.nanos) }

  /** Everything but the Unix epoch itself and the instants 64 bits of nanoseconds cannot hold. */
  predicate Storable(x: Expiry) { x.Never? || (x.nanos != 0 && InRange(x.nanos)) }

  lemma ExpiryRoundTripsIff(x: Expiry)
    ensures ExpiryOf(Nanos(x)) == x <==> Storable(x)
  {}

  function Apply(data: Data, o: Op): Data
  {
    if o.d then data - {o.key} else data[o.key := Entry(o.value, ExpiryOf(o.e))]
  }

  function ApplyAll(data: Data, ops: seq<Op>): Data
    decreases ops
  {
    if |ops| == 0 then data else ApplyAll(Apply(data, ops[0]), ops[1..])
  }

  lemma {:induction false} ApplyAllAppend(data: Data, a: seq<Op>, b: seq<Op>)
    ensures ApplyAll(data, a + b) == ApplyAll(ApplyAll(data, a), b)
    decreases a
  {
    if |a| == 0 {
      assert a + b == b;
    } else {
      assert (a + b)[1..] == a[1..] + b;
      ApplyAllAppend(Apply(data, a[0]), a[1..], b);
    }
  }

  function Lookup(data: Data, k: Key): Option<Entry> { if k in data then Some(data[k]) else None }

  /** The last operation a log performs on a key. */
  function Touch(ops: seq<Op>, k: Key): Option<Op>
  {
    if |ops| == 0 then None
    else if Touch(ops[1..], k).Some? then Touch(ops[1..], k)
    else if ops[0].key == k then Some(ops[0])
    else None
  }

  lemma {:induction false} LastOperationDecides(data: Data, ops: seq<Op>, k: Key)
    ensures Lookup(ApplyAll(data, ops), k) ==
            match Touch(ops, k)
            case None => Lookup(data, k)
            case Some(o) => if o.d then None else Some(Entry(o.value, ExpiryOf(o.e)))
    decreases ops
  {
    if |ops| > 0 { LastOperationDecides(Apply(data, ops[0]), ops[1..], k); }
  }

  /** Replaying a log on top of its own result changes nothing. */
  lemma ReplayTwiceIsOnce(data: Data, ops: seq<Op>)
    ensures ApplyAll(ApplyAll(data, ops), ops) == ApplyAll(data, ops)
  {
    var once := ApplyAll(data, ops);
    var twice := ApplyAll(once, ops);
    forall k: Key
      ensures Lookup(twice, k) == Lookup(once, k)
    {
      LastOperationDecides(data, ops, k);
      LastOperationDecides(once, ops, k);
    }
    assert forall k :: k in twice <==> Lookup(twice, k).Some?;
    assert forall k :: k in once <==> Lookup(once, k).Some?;
    assert forall k :: k in once ==> Lookup(twice, k) == Some(once[k]);
  }

  /** Every entry expires at an instant the log can write. */
  ghost predicate AllStorable(data: Data)
  {
    forall k :: k in data ==> Storable(data[k].expiresAt)
  }

  lemma {:induction false} ApplyAllStorable(data: Data, ops: seq<Op>)
    requires AllStorable(data)
    ensures AllStorable(ApplyAll(data, ops))
    decreases ops
  {
    if |ops| > 0 { ApplyAllStorable(Apply(data, ops[0]), ops[1..]); }
  }

  // ---- reading a log back ---------------------------------------------------------------

  function NewlineAt(b: seq<byte>): (i: nat)
    ensures i <= |b|
    ensures NEWLINE !in b[..i]
    ensures i < |b| ==> b[i] == NEWLINE
  {
    if |b| == 0 || b[0] == NEWLINE then 0
    else
      var i := 1 + NewlineAt(b[1..]);
      assert b[..i] == [b[0]] + b[1..][..i - 1];
      i
  }

  datatype Parsed = Parsed(ops: seq<Op>, good: nat)

  /** Complete, decodable lines up to the first that is not, and the bytes they take. */
  function Parse(c: Codec, log: seq<byte>): (p: Parsed)
    ensures p.good <= |log|
    decreases |log|
  {
    var i := NewlineAt(log);
    if i == |log| || c.dec(log[..i]).None? then Parsed([], 0)
    else
      var rest := Parse(c, log[i + 1..]);
      Parsed([c.dec(log[..i]).value] + rest.ops, i + 1 + rest.good)
  }

  /** Every byte of the log belongs to a readable record. */
  predicate Clean(c: Codec, log: seq<byte>) { Parse(c, log).good == |log| }

  lemma {:induction false} FirstNewline(line: seq<byte>, rest: seq<byte>)
    requires NEWLINE !in line
    ensures NewlineAt(line + [NEWLINE] + rest) == |line|
  {
    if |line| > 0 {
      assert (line + [NEWLINE] + rest)[1..] == line[1..] + [NEWLINE] + rest;
      FirstNewline(line[1..], rest);
    }
  }

  lemma Slices(line: seq<byte>, rest: seq<byte>)
    ensures
      var log := line + [NEWLINE] + rest;
      log[..|line|] == line && log[|line| + 1..] == rest && |line| < |log|
  {}

  lemma ParseAt(c: Codec, log: seq<byte>, i: nat)
    requires i < |log| && i == NewlineAt(log) && c.dec(log[..i]).Some?
    ensures Parse(c, log)
         == Parsed([c.dec(log[..i]).value] + Parse(c, log[i + 1..]).ops, i + 1 + Parse(c, log[i + 1..]).good)
  {}

  lemma ParseCons(c: Codec, line: seq<byte>, rest: seq<byte>)
    requires NEWLINE !in line && c.dec(line).Some?
    ensures Parse(c, line + [NEWLINE] + rest)
         == Parsed([c.dec(line).value] + Parse(c, rest).ops, |line| + 1 + Parse(c, rest).good)
  {
    FirstNewline(line, rest);
    Slices(line, rest);
    ParseAt(c, line + [NEWLINE] + rest, |line|);
  }

  /** A log that yields a record starts with a readable line. */
  lemma FirstRecord(c: Codec, log: seq<byte>) returns (line: seq<byte>, rest: seq<byte>)
    requires Parse(c, log).good > 0
    ensures log == line + [NEWLINE] + rest && NEWLINE !in line && c.dec(line).Some?
  {
    var i := NewlineAt(log);
    line, rest := log[..i], log[i + 1..];
  }

  lemma {:induction false} ParseAppend(c: Codec, a: seq<byte>, b: seq<byte>)
    requires Clean(c, a)
    ensures Parse(c, a + b) == Parsed(Parse(c, a).ops + Parse(c, b).ops, |a| + Parse(c, b).good)
    decreases |a|
  {
    if |a| == 0 {
      assert a + b == b;
    } else {
      var line, rest := FirstRecord(c, a);
      ParseAppend(c, rest, b) by { ParseCons(c, line, rest); }
      ParseAppendStep(c, line, rest, b);
    }
  }

  lemma ParseAppendStep(c: Codec, line: seq<byte>, rest: seq<byte>, b: seq<byte>)
    requires NEWLINE !in line && c.dec(line).Some?
    requires Parse(c, rest + b) == Parsed(Parse(c, rest).ops + Parse(c, b).ops, |rest| + Parse(c, b).good)
    ensures
      var a := line + [NEWLINE] + rest;
      Parse(c, a + b) == Parsed(Parse(c, a).ops + Parse(c, b).ops, |a| + Parse(c, b).good)
  {
    ParseCons(c, line, rest);
    ParseCons(c, line, rest + b);
    Associates(line + [NEWLINE], rest, b);
    Associates([c.dec(line).value], Parse(c, rest).ops, Parse(c, b).ops);
  }

  /** Cutting a log back to its good bytes keeps every record and leaves nothing to cut. */
  lemma {:induction false} ParseTruncated(c: Codec, log: seq<byte>)
    ensures Parse(c, log[..Parse(c, log).good]) == Parse(c, log)
    decreases |log|
  {
    if Parse(c, log).good > 0 {
      var line, rest := FirstRecord(c, log);
      var kept := rest[..Parse(c, rest).good];
      ParseCons(c, line, rest);
      ParseCons(c, line, kept);
      ParseTruncated(c, rest);
      assert log[..Parse(c, log).good] == line + [NEWLINE] + kept;
    }
  }

  lemma ParseLine(c: Codec, o: Op)
    requires Sound(c)
    ensures Parse(c, Line(c, o)) == Parsed([o], |Line(c, o)|)
  {
    assert NEWLINE !in c.enc(o) && c.dec(c.enc(o)) == Some(o);
    ParseCons(c, c.enc(o), []);
    assert Line(c, o) == c.enc(o) + [NEWLINE] + [];
  }

  /** A record cut anywhere before its newline contributes nothing. */
  lemma ParseTornLine(c: Codec, o: Op, n: nat)
    requires Sound(c) && n < |Line(c, o)|
    ensures Parse(c, Line(c, o)[..n]) == Parsed([], 0)
  {}

  /** Torn tail: any byte-prefix of a written log reads back as its longest run of whole
      records, and those records are exactly the bytes recovery keeps. */
  lemma {:induction false} TornTail(c: Codec, ops: seq<Op>, n: nat) returns (k: nat)
    requires Sound(c) && n <= |EncodeLog(c, ops)|
    ensures k <= |ops| && |EncodeLog(c, ops[..k])| <= n
    ensures k < |ops| ==> n < |EncodeLog(c, ops[..k + 1])|
    ensures Parse(c, EncodeLog(c, ops)[..n]) == Parsed(ops[..k], |EncodeLog(c, ops[..k])|)
    ensures |EncodeLog(c, ops[..k])| <= |EncodeLog(c, ops)|
    decreases ops
  {
    if |ops| == 0 {
      k := 0;
    } else if n < |Line(c, ops[0])| {
      k := 0;
      TornFirst(c, ops, n);
    } else {
      var m := TornTail(c, ops[1..], n - |Line(c, ops[0])|);
      TornTailStep(c, ops, n, m);
      EncodePrefix(c, ops, m);
      if m < |ops[1..]| { EncodePrefix(c, ops, m + 1); }
      k := m + 1;
    }
  }

  lemma TornFirst(c: Codec, ops: seq<Op>, n: nat)
    requires Sound(c) && |ops| > 0 && n < |Line(c, ops[0])|
    ensures n <= |EncodeLog(c, ops)| && Parse(c, EncodeLog(c, ops)[..n]) == Parsed([], 0)
    ensures EncodeLog(c, ops[..0]) == [] && |EncodeLog(c, ops[..1])| == |Line(c, ops[0])|
  {
    assert EncodeLog(c, ops)[..n] == Line(c, ops[0])[..n];
    ParseTornLine(c, ops[0], n);
    EncodePrefix(c, ops, 0);
  }

  lemma TornTailStep(c: Codec, ops: seq<Op>, n: nat, m: nat)
    requires Sound(c) && |ops| > 0 && |Line(c, ops[0])| <= n <= |EncodeLog(c, ops)| && m <= |ops[1..]|
    requires Parse(c, EncodeLog(c, ops[1..])[..n - |Line(c, ops[0])|])
          == Parsed(ops[1..][..m], |EncodeLog(c, ops[1..][..m])|)
    ensures Parse(c, EncodeLog(c, ops)[..n]) == Parsed(ops[..m + 1], |EncodeLog(c, ops[..m + 1])|)
  {
    var line := Line(c, ops[0]);
    var rest := EncodeLog(c, ops[1..])[..n - |line|];
    PrefixOfSum(line, EncodeLog(c, ops[1..]), n);
    ParseAfterLine(c, ops[0], rest);
    EncodePrefix(c, ops, m);
    assert [ops[0]] + ops[1..][..m] == ops[..m + 1];
  }

  lemma PrefixOfSum(a: seq<byte>, b: seq<byte>, n: nat)
    requires |a| <= n <= |a| + |b|
    ensures (a + b)[..n] == a + b[..n - |a|]
  {}

  lemma ParseAfterLine(c: Codec, o: Op, rest: seq<byte>)
    requires Sound(c)
    ensures Parse(c, Line(c, o) + rest) == Parsed([o] + Parse(c, rest).ops, |Line(c, o)| + Parse(c, rest).good)
  {
    ParseLine(c, o);
    ParseAppend(c, Line(c, o), rest);
  }

  lemma EncodePrefix(c: Codec, ops: seq<Op>, k: nat)
    requires |ops| > 0 && k <= |ops[1..]|
    ensures EncodeLog(c, ops[..k + 1]) == Line(c, ops[0]) + EncodeLog(c, ops[1..][..k])
  {
    assert ops[..k + 1][1..] == ops[1..][..k];
  }

  // ---- the disk -----------------------------------------------------------------------------

  type Snap = map<Key, Op>

  datatype Temp = NoTemp | TornTemp | WholeTemp(snap: Snap)

  datatype Disk = Disk(snap: Snap, temp: Temp, log: seq<byte>)

  predicate WellFormed(s: Snap) { forall k :: k in s ==> s[k].key == k && !s[k].d }

  function MakeSnap(data: Data): Snap
  {
    map k | k in data :: Op(k, data[k].value, Nanos(data[k].expiresAt), false)
  }

  function SnapData(s: Snap): Data
  {
    map k | k in s :: Entry(s[k].value, ExpiryOf(s[k].e))
  }

  lemma SnapshotRoundTrip(data: Data)
    requires AllStorable(data)
    ensures WellFormed(MakeSnap(data)) && SnapData(MakeSnap(data)) == data
  {
    forall k | k in data
      ensures SnapData(MakeSnap(data))[k] == data[k]
    {
      ExpiryRoundTripsIff(data[k].expiresAt);
    }
  }

  function Recover(c: Codec, disk: Disk): Data
  {
    ApplyAll(SnapData(disk.snap), Parse(c, disk.log).ops)
  }

  /** What recovery leaves on disk. */
  function Reopen(c: Codec, disk: Disk): Disk
  {
    disk.(log := disk.log[..Parse(c, disk.log).good])
  }

  /** A second recovery, or one cut short and started again, sees the same state. */
  lemma RecoveryIsIdempotent(c: Codec, disk: Disk)
    ensures Clean(c, Reopen(c, disk).log)
    ensures Recover(c, Reopen(c, disk)) == Recover(c, disk)
    ensures Reopen(c, Reopen(c, disk)) == Reopen(c, disk)
  {
    ParseTruncated(c, disk.log);
    var log := Reopen(c, disk).log;
    assert log[..|log|] == log;
  }

  // ---- commands and every disk state they pass through ------------------------------------

  datatype Command =
    | Put(key: Key, value: seq<byte>, expiresAt: Expiry)
    | Delete(key: Key)
    | Take(key: Key)
    | Sweep(now: int, dead: seq<Key>)
    | Compact

  datatype FileState = FileState(disk: Disk, data: Data, ops: nat)

  function Remove(k: Key): Op { Op(k, [], 0, true) }

  function Removals(ks: seq<Key>): (r: seq<Op>)
    ensures |r| == |ks|
  {
    seq(|ks|, i requires 0 <= i < |ks| => Remove(ks[i]))
  }

  function Expired(data: Data, now: int): set<Key>
  {
    set k | k in data && !Live(data[k].expiresAt, now)
  }

  /** A sweep lists the expired keys once each, in some order. */
  ghost predicate CommandFits(data: Data, cmd: Command)
  {
    cmd.Sweep? ==> multiset(cmd.dead) == multiset(Expired(data, cmd.now))
  }

  function OpsFor(data: Data, cmd: Command): seq<Op>
  {
    match cmd
    case Put(k, v, e) => [Op(k, v, Nanos(e), false)]
    case Delete(k) => if k in data then [Remove(k)] else []
    case Take(k) => if k in data then [Remove(k)] else []
    case Sweep(_, dead) => Removals(dead)
    case Compact => []
  }

  /** The states a write of one line may leave behind: one per byte that made it out. */
  function AppendStates(disk: Disk, line: seq<byte>): seq<Disk>
  {
    seq(|line|, i requires 0 <= i < |line| => disk.(log := disk.log + line[..i + 1]))
  }

  function Appended(c: Codec, disk: Disk, ops: seq<Op>): Disk
    decreases ops
  {
    if |ops| == 0 then disk else Appended(c, disk.(log := disk.log + Line(c, ops[0])), ops[1..])
  }

  function AppendAllStates(c: Codec, disk: Disk, ops: seq<Op>): seq<Disk>
    decreases ops
  {
    if |ops| == 0 then []
    else AppendStates(disk, Line(c, ops[0]))
         + AppendAllStates(c, disk.(log := disk.log + Line(c, ops[0])), ops[1..])
  }

  /** Temp file half written, whole, renamed over the snapshot, log truncated. */
  function CompactStates(disk: Disk, data: Data): seq<Disk>
  {
    var s := MakeSnap(data);
    [disk.(temp := TornTemp), disk.(temp := WholeTemp(s)), Disk(s, NoTemp, disk.log), Disk(s, NoTemp, [])]
  }

  predicate Compacts(compactAfter: nat, f: FileState, cmd: Command)
  {
    cmd.Compact? || (compactAfter > 0 && f.ops + |OpsFor(f.data, cmd)| >= compactAfter)
  }

  function States(c: Codec, compactAfter: nat, f: FileState, cmd: Command): seq<Disk>
  {
    var ops := OpsFor(f.data, cmd);
    AppendAllStates(c, f.disk, ops)
    + if Compacts(compactAfter, f, cmd) then CompactStates(Appended(c, f.disk, ops), ApplyAll(f.data, ops)) else []
  }

  function After(c: Codec, compactAfter: nat, f: FileState, cmd: Command): FileState
  {
    var ops := OpsFor(f.data, cmd);
    var data := ApplyAll(f.data, ops);
    if Compacts(compactAfter, f, cmd) then FileState(Disk(MakeSnap(data), NoTemp, []), data, 0)
    else FileState(Appended(c, f.disk, ops), data, f.ops + |ops|)
  }

  /** Memory is what a recovery of the disk would rebuild, and the log has no loose end. */
  ghost predicate Consistent(c: Codec, f: FileState)
  {
    && WellFormed(f.disk.snap)
    && Clean(c, f.disk.log)
    && Recover(c, f.disk) == f.data
    && AllStorable(f.data)
  }

  // ---- crash points ----------------------------------------------------------------------------

  lemma AppendOne(c: Codec, disk: Disk, o: Op)
    requires Sound(c) && Clean(c, disk.log)
    ensures
      var next := disk.(log := disk.log + Line(c, o));
      Clean(c, next.log) && Parse(c, next.log).ops == Parse(c, disk.log).ops + [o]
  {
    ParseLine(c, o);
    ParseAppend(c, disk.log, Line(c, o));
  }

  lemma {:induction false} AppendedParses(c: Codec, disk: Disk, ops: seq<Op>)
    requires Sound(c) && Clean(c, disk.log)
    ensures
      var end := Appended(c, disk, ops);
      && end.snap == disk.snap && end.temp == disk.temp
      && Clean(c, end.log) && Parse(c, end.log).ops == Parse(c, disk.log).ops + ops
    decreases ops
  {
    if |ops| > 0 {
      AppendOne(c, disk, ops[0]);
      AppendedParses(c, disk.(log := disk.log + Line(c, ops[0])), ops[1..]);
      Associates(Parse(c, disk.log).ops, [ops[0]], ops[1..]);
      assert ops == [ops[0]] + ops[1..];
    } else {
      assert Parse(c, disk.log).ops + ops == Parse(c, disk.log).ops;
    }
  }

  /** While a line is going out, the log reads as it did, until its last byte lands. */
  lemma LineCrash(c: Codec, disk: Disk, o: Op, i: nat)
    requires Sound(c) && Clean(c, disk.log) && i < |Line(c, o)|
    ensures Parse(c, AppendStates(disk, Line(c, o))[i].log).ops
         == Parse(c, disk.log).ops + if i + 1 == |Line(c, o)| then [o] else []
  {
    ParseAppend(c, disk.log, Line(c, o)[..i + 1]);
    CutLine(c, o, i + 1);
  }

  lemma CutLine(c: Codec, o: Op, n: nat)
    requires Sound(c) && n <= |Line(c, o)|
    ensures Parse(c, Line(c, o)[..n]).ops == if n == |Line(c, o)| then [o] else []
  {
    if n == |Line(c, o)| {
      assert Line(c, o)[..n] == Line(c, o);
      ParseLine(c, o);
    } else {
      ParseTornLine(c, o, n);
    }
  }

  /** The `i`-th state of a series of appends shows the first `j` operations. */
  ghost predicate Shows(c: Codec, disk: Disk, ops: seq<Op>, s: Disk, j: nat)
  {
    j <= |ops| && s.snap == disk.snap && Parse(c, s.log).ops == Parse(c, disk.log).ops + ops[..j]
  }

  lemma {:induction false} AppendCrash(c: Codec, disk: Disk, ops: seq<Op>, i: nat) returns (j: nat)
    requires Sound(c) && Clean(c, disk.log) && i < |AppendAllStates(c, disk, ops)|
    ensures Shows(c, disk, ops, AppendAllStates(c, disk, ops)[i], j)
    ensures i + 1 == |AppendAllStates(c, disk, ops)| ==> j == |ops|
    decreases ops
  {
    var line := Line(c, ops[0]);
    var next := disk.(log := disk.log + line);
    if i < |line| {
      j := FirstLineCrash(c, disk, ops, i);
    } else {
      var m := AppendCrash(c, next, ops[1..], i - |line|) by { AppendOne(c, disk, ops[0]); }
      LaterLineCrash(c, disk, ops, AppendAllStates(c, next, ops[1..])[i - |line|], m);
      j := m + 1;
    }
  }

  lemma FirstLineCrash(c: Codec, disk: Disk, ops: seq<Op>, i: nat) returns (j: nat)
    requires Sound(c) && Clean(c, disk.log) && |ops| > 0 && i < |Line(c, ops[0])|
    ensures i < |AppendAllStates(c, disk, ops)|
    ensures Shows(c, disk, ops, AppendAllStates(c, disk, ops)[i], j)
    ensures i + 1 == |AppendAllStates(c, disk, ops)| ==> j == |ops|
  {
    var line := Line(c, ops[0]);
    LineCrash(c, disk, ops[0], i);
    j := if i + 1 == |line| then 1 else 0;
    assert ops[..j] == if i + 1 == |line| then [ops[0]] else [];
    if |ops| > 1 { MoreStates(c, disk.(log := disk.log + line), ops[1..]); }
  }

  lemma LaterLineCrash(c: Codec, disk: Disk, ops: seq<Op>, s: Disk, m: nat)
    requires Sound(c) && Clean(c, disk.log) && |ops| > 0
    requires Shows(c, disk.(log := disk.log + Line(c, ops[0])), ops[1..], s, m)
    ensures Shows(c, disk, ops, s, m + 1)
  {
    AppendOne(c, disk, ops[0]);
    AppendCrashStep(Parse(c, disk.log).ops, ops, m);
  }

  lemma MoreStates(c: Codec, disk: Disk, ops: seq<Op>)
    requires |ops| > 0
    ensures |AppendAllStates(c, disk, ops)| > 0
  {}

  lemma AppendCrashStep(done: seq<Op>, ops: seq<Op>, m: nat)
    requires |ops| > 0 && m <= |ops[1..]|
    ensures done + [ops[0]] + ops[1..][..m] == done + ops[..m + 1]
  {}

  lemma CompactCrash(c: Codec, disk: Disk, data: Data, i: nat)
    requires Consistent(c, FileState(disk, data, 0)) && i < 4
    ensures Recover(c, CompactStates(disk, data)[i]) == data
    ensures WellFormed(CompactStates(disk, data)[i].snap)
  {
    SnapshotRoundTrip(data);
    ReplayTwiceIsOnce(SnapData(disk.snap), Parse(c, disk.log).ops);
  }

  /** Wherever a command is cut, recovery finds the state after some prefix of its log
      operations; past its last step it finds the finished state. */
  lemma CommandCrash(c: Codec, compactAfter: nat, f: FileState, cmd: Command, i: nat) returns (j: nat)
    requires Sound(c) && Consistent(c, f) && i < |States(c, compactAfter, f, cmd)|
    ensures j <= |OpsFor(f.data, cmd)|
    ensures
      var s := States(c, compactAfter, f, cmd)[i];
      WellFormed(s.snap) && Recover(c, s) == ApplyAll(f.data, OpsFor(f.data, cmd)[..j])
    ensures i + 1 == |States(c, compactAfter, f, cmd)| ==> j == |OpsFor(f.data, cmd)|
  {
    var ops := OpsFor(f.data, cmd);
    var writes := AppendAllStates(c, f.disk, ops);
    var base := SnapData(f.disk.snap);
    if i < |writes| {
      j := AppendCrash(c, f.disk, ops, i);
      ApplyAllAppend(base, Parse(c, f.disk.log).ops, ops[..j]);
    } else {
      j := |ops|;
      assert ops[..j] == ops;
      AppendedConsistent(c, f, ops);
      CompactCrash(c, Appended(c, f.disk, ops), ApplyAll(f.data, ops), i - |writes|);
    }
  }

  lemma AppendedConsistent(c: Codec, f: FileState, ops: seq<Op>)
    requires Sound(c) && Consistent(c, f)
    ensures Consistent(c, FileState(Appended(c, f.disk, ops), ApplyAll(f.data, ops), 0))
  {
    AppendedParses(c, f.disk, ops);
    ApplyAllAppend(SnapData(f.disk.snap), Parse(c, f.disk.log).ops, ops);
    ApplyAllStorable(f.data, ops);
  }

  lemma CommandCompletes(c: Codec, compactAfter: nat, f: FileState, cmd: Command)
    requires Sound(c) && Consistent(c, f)
    ensures Consistent(c, After(c, compactAfter, f, cmd))
  {
    var ops := OpsFor(f.data, cmd);
    AppendedConsistent(c, f, ops);
    SnapshotRoundTrip(ApplyAll(f.data, ops));
    assert Parse(c, []).ops == [];
  }

  // ---- refinement of a store that never crashes ---------------------------------------------------

  function OnMem(d: Data, cmd: Command): Data
  {
    match cmd
    case Put(k, v, e) => d[k := Entry(v, e)]
    case Delete(k) => d - {k}
    case Take(k) => d - {k}
    case Sweep(now, _) => Swept(d, now)
    case Compact => d
  }

  lemma {:induction false} RemovalsRemove(data: Data, ks: seq<Key>)
    ensures ApplyAll(data, Removals(ks)) == data - (set k | k in ks)
    decreases ks
  {
    if |ks| > 0 {
      assert Removals(ks)[1..] == Removals(ks[1..]);
      RemovalsRemove(data - {ks[0]}, ks[1..]);
      assert forall k :: k in ks <==> k == ks[0] || k in ks[1..];
    }
  }

  /** Removing what has expired leaves exactly what does not expire or expires later. */
  lemma SweepKeepsTheUnexpired(data: Data, now: int, dead: seq<Key>)
    requires CommandFits(data, Sweep(now, dead))
    ensures
      var after := ApplyAll(data, Removals(dead));
      && (forall k :: k in after <==> k in data && (data[k].expiresAt.Never? || now < data[k].expiresAt.nanos))
      && (forall k :: k in after ==> after[k] == data[k])
  {
    RemovalsRemove(data, dead);
    assert forall k :: k in dead <==> k in multiset(dead);
  }

  lemma ApplyOne(data: Data, o: Op)
    ensures ApplyAll(data, [o]) == Apply(data, o)
  {}

  /** A put whose expiry the log cannot write. */
  predicate LosesExpiry(cmd: Command) { cmd.Put? && !Storable(cmd.expiresAt) }

  /** A finished command changes the live set as the in-memory store would, except that an expiry at
      the Unix epoch is stored as no expiry at all, and one that does not fit 64 bits of nanoseconds as
      another instant or none. */
  lemma CommandMatchesMemIff(data: Data, cmd: Command)
    requires CommandFits(data, cmd)
    ensures ApplyAll(data, OpsFor(data, cmd)) == OnMem(data, cmd) <==> !LosesExpiry(cmd)
  {
    match cmd
    case Put(k, v, e) =>
      ApplyOne(data, Op(k, v, Nanos(e), false));
      ExpiryRoundTripsIff(e);
      assert OnMem(data, cmd)[k] == Entry(v, e);
      assert ApplyAll(data, OpsFor(data, cmd))[k] == Entry(v, ExpiryOf(Nanos(e)));
    case Delete(k) => ApplyOne(data, Remove(k));
    case Take(k) => ApplyOne(data, Remove(k));
    case Sweep(now, dead) =>
      RemovalsRemove(data, dead);
      assert forall k :: k in dead <==> k in multiset(dead);
    case Compact =>
  }

  datatype Event = Done(cmd: Command) | Crash(cmd: Command, at: nat)

  /** `at` disk states of the interrupted command were reached before the crash. */
  ghost predicate EventFits(c: Codec, compactAfter: nat, f: FileState, ev: Event)
  {
    CommandFits(f.data, ev.cmd) && (ev.Crash? ==> ev.at <= |States(c, compactAfter, f, ev.cmd)|)
  }

  function Next(c: Codec, compactAfter: nat, f: FileState, ev: Event): FileState
    requires ev.Crash? ==> ev.at <= |States(c, compactAfter, f, ev.cmd)|
  {
    match ev
    case Done(cmd) => After(c, compactAfter, f, cmd)
    case Crash(cmd, at) =>
      var disk := if at == 0 then f.disk else States(c, compactAfter, f, cmd)[at - 1];
      FileState(Reopen(c, disk), Recover(c, disk), 0)
  }

  ghost predicate RunFits(c: Codec, compactAfter: nat, f: FileState, run: seq<Event>)
    decreases run
  {
    |run| > 0 ==>
      EventFits(c, compactAfter, f, run[0]) && RunFits(c, compactAfter, Next(c, compactAfter, f, run[0]), run[1..])
  }

  ghost function RunFile(c: Codec, compactAfter: nat, f: FileState, run: seq<Event>): FileState
    requires RunFits(c, compactAfter, f, run)
    decreases run
  {
    if |run| == 0 then f else RunFile(c, compactAfter, Next(c, compactAfter, f, run[0]), run[1..])
  }

  function RunMem(d: Data, cmds: seq<Command>): Data
    decreases cmds
  {
    if |cmds| == 0 then d else RunMem(OnMem(d, cmds[0]), cmds[1..])
  }

  function RunMemAll(d: Data, parts: seq<seq<Command>>): Data
    decreases parts
  {
    if |parts| == 0 then d else RunMemAll(RunMem(d, parts[0]), parts[1..])
  }

  function Deletes(ks: seq<Key>): seq<Command>
  {
    seq(|ks|, i requires 0 <= i < |ks| => Delete(ks[i]))
  }

  /** A finished command counts once. An interrupted one counted once or not at all, or, for
      a sweep, removed some of the expired keys it had set out to remove. */
  ghost predicate Accounts(ev: Event, part: seq<Command>)
  {
    || part == [ev.cmd]
    || (ev.Crash? && part == [])
    || (ev.Crash? && ev.cmd.Sweep? && exists j :: 0 <= j <= |ev.cmd.dead| && part == Deletes(ev.cmd.dead[..j]))
  }

  lemma {:induction false} DeletesAreRemovals(data: Data, ks: seq<Key>)
    ensures RunMem(data, Deletes(ks)) == ApplyAll(data, Removals(ks))
    decreases ks
  {
    if |ks| > 0 {
      assert Deletes(ks)[1..] == Deletes(ks[1..]);
      assert Removals(ks)[1..] == Removals(ks[1..]);
      DeletesAreRemovals(data - {ks[0]}, ks[1..]);
    }
  }

  lemma CrashAccounted(c: Codec, compactAfter: nat, f: FileState, ev: Event) returns (part: seq<Command>)
    requires Sound(c) && Consistent(c, f) && EventFits(c, compactAfter, f, ev) && ev.Crash?
    requires !LosesExpiry(ev.cmd)
    ensures Accounts(ev, part)
    ensures Next(c, compactAfter, f, ev).data == RunMem(f.data, part)
    ensures Consistent(c, Next(c, compactAfter, f, ev))
  {
    var j := EventReaches(c, compactAfter, f, ev);
    part := CrashPart(f.data, ev, j);
  }

  lemma CrashPart(data: Data, ev: Event, j: nat) returns (part: seq<Command>)
    requires CommandFits(data, ev.cmd) && ev.Crash? && j <= |OpsFor(data, ev.cmd)|
    requires !LosesExpiry(ev.cmd)
    ensures Accounts(ev, part)
    ensures ApplyAll(data, OpsFor(data, ev.cmd)[..j]) == RunMem(data, part)
  {
    var ops := OpsFor(data, ev.cmd);
    if ev.cmd.Sweep? {
      part := Deletes(ev.cmd.dead[..j]);
      DeletesAreRemovals(data, ev.cmd.dead[..j]);
      assert ops[..j] == Removals(ev.cmd.dead[..j]);
    } else if j == |ops| {
      part := [ev.cmd];
      assert ops[..j] == ops;
      CommandMatchesMemIff(data, ev.cmd);
      RunMemOne(data, ev.cmd);
    } else {
      part := [];
      assert ops[..j] == [];
    }
  }

  lemma RunMemOne(data: Data, cmd: Command)
    ensures RunMem(data, [cmd]) == OnMem(data, cmd)
  {}

  /** Crash refinement: over any run of commands, crashes at any disk state and reopens, the
      store holds what an in-memory store that never crashed would hold after the commands
      that finished, in order, and for each interrupted one all, none or part of it. */
  lemma {:induction false} FileRefinesMem(c: Codec, compactAfter: nat, f: FileState, run: seq<Event>)
    returns (parts: seq<seq<Command>>)
    requires Sound(c) && Consistent(c, f) && RunFits(c, compactAfter, f, run)
    requires forall i :: 0 <= i < |run| ==> !LosesExpiry(run[i].cmd)
    ensures |parts| == |run| && forall i :: 0 <= i < |run| ==> Accounts(run[i], parts[i])
    ensures RunFile(c, compactAfter, f, run).data == RunMemAll(f.data, parts)
    ensures Consistent(c, RunFile(c, compactAfter, f, run))
    decreases run
  {
    if |run| == 0 {
      parts := [];
    } else {
      var part := [run[0].cmd];
      if run[0].Crash? {
        part := CrashAccounted(c, compactAfter, f, run[0]);
      } else {
        CommandCompletes(c, compactAfter, f, run[0].cmd);
        CommandMatchesMemIff(f.data, run[0].cmd);
        RunMemOne(f.data, run[0].cmd);
      }
      var rest := FileRefinesMem(c, compactAfter, Next(c, compactAfter, f, run[0]), run[1..]);
      parts := [part] + rest;
      assert parts[1..] == rest;
    }
  }

  // ---- an acknowledged write survives --------------------------------------------------------------

  /** A command that leaves the key as it is: it does not write it, removes nothing that is there, and does not
      sweep an entry that has expired. */
  predicate Leaves(cmd: Command, k: Key, held: Option<Entry>)
  {
    match cmd
    case Put(k', _, _) => k' != k
    case Delete(k') => k' == k ==> held.None?
    case Take(k') => k' == k ==> held.None?
    case Sweep(now, _) => held.Some? ==> held.value.expiresAt.Never? || now < held.value.expiresAt.nanos
    case Compact => true
  }

  lemma {:induction false} Untouched(ops: seq<Op>, k: Key)
    requires forall i :: 0 <= i < |ops| ==> ops[i].key != k
    ensures Touch(ops, k).None?
  {
    if |ops| > 0 { Untouched(ops[1..], k); }
  }

  /** What the log operations of such a command are about, as far as they got. */
  lemma PrefixLeaves(data: Data, cmd: Command, k: Key, j: nat)
    requires CommandFits(data, cmd) && j <= |OpsFor(data, cmd)|
    requires Leaves(cmd, k, Lookup(data, k))
    ensures Lookup(ApplyAll(data, OpsFor(data, cmd)[..j]), k) == Lookup(data, k)
  {
    var ops := OpsFor(data, cmd);
    if cmd.Sweep? {
      forall i | 0 <= i < |ops| ensures ops[i].key != k { assert cmd.dead[i] in multiset(cmd.dead); }
    }
    Untouched(ops[..j], k);
    LastOperationDecides(data, ops[..j], k);
  }

  /** Every event leaves the data as some prefix of the command's log operations makes it. */
  lemma EventReaches(c: Codec, compactAfter: nat, f: FileState, ev: Event) returns (j: nat)
    requires Sound(c) && Consistent(c, f) && EventFits(c, compactAfter, f, ev)
    ensures j <= |OpsFor(f.data, ev.cmd)| && Consistent(c, Next(c, compactAfter, f, ev))
    ensures Next(c, compactAfter, f, ev).data == ApplyAll(f.data, OpsFor(f.data, ev.cmd)[..j])
  {
    var ops := OpsFor(f.data, ev.cmd);
    assert ops[..0] == [] && ops[..|ops|] == ops;
    if ev.Done? {
      j := |ops|;
      CommandCompletes(c, compactAfter, f, ev.cmd);
    } else if ev.at == 0 {
      j := 0;
      RecoveryIsIdempotent(c, f.disk);
    } else {
      var disk := States(c, compactAfter, f, ev.cmd)[ev.at - 1];
      j := CommandCrash(c, compactAfter, f, ev.cmd, ev.at - 1);
      RecoveryIsIdempotent(c, disk);
      ApplyAllStorable(f.data, ops[..j]);
    }
  }

  lemma EventLeaves(c: Codec, compactAfter: nat, f: FileState, ev: Event, k: Key)
    requires Sound(c) && Consistent(c, f) && EventFits(c, compactAfter, f, ev)
    requires Leaves(ev.cmd, k, Lookup(f.data, k))
    ensures Consistent(c, Next(c, compactAfter, f, ev))
    ensures Lookup(Next(c, compactAfter, f, ev).data, k) == Lookup(f.data, k)
  {
    var j := EventReaches(c, compactAfter, f, ev);
    PrefixLeaves(f.data, ev.cmd, k, j);
  }

  lemma {:induction false} RunLeaves(c: Codec, compactAfter: nat, f: FileState, run: seq<Event>, k: Key)
    requires Sound(c) && Consistent(c, f) && RunFits(c, compactAfter, f, run)
    requires forall i :: 0 <= i < |run| ==> Leaves(run[i].cmd, k, Lookup(f.data, k))
    ensures Lookup(RunFile(c, compactAfter, f, run).data, k) == Lookup(f.data, k)
    decreases run
  {
    if |run| > 0 {
      EventLeaves(c, compactAfter, f, run[0], k);
      RunLeaves(c, compactAfter, Next(c, compactAfter, f, run[0]), run[1..], k);
    }
  }

  /** Once a put has been acknowledged, its value is there after any run of commands, crashes at any byte and
      reopens in which nobody writes the key again or sweeps after it has expired; and a get answers with it
      for exactly as long as the put asked for. */
  lemma AcknowledgedPutSurvives(
    c: Codec, compactAfter: nat, f: FileState, k: Key, v: seq<byte>, e: Expiry, run: seq<Event>, now: int)
    requires Sound(c) && Consistent(c, f) && Storable(e)
    requires RunFits(c, compactAfter, After(c, compactAfter, f, Put(k, v, e)), run)
    requires forall i :: 0 <= i < |run| ==> Leaves(run[i].cmd, k, Some(Entry(v, e)))
    ensures
      var data := RunFile(c, compactAfter, After(c, compactAfter, f, Put(k, v, e)), run).data;
      && k in data && data[k] == Entry(v, e)
      && ValueOf(EntryAt(data, k, now)) == if e.Never? || now < e.nanos then Some(v) else None
  {
    var f1 := After(c, compactAfter, f, Put(k, v, e));
    CommandCompletes(c, compactAfter, f, Put(k, v, e));
    CommandMatchesMemIff(f.data, Put(k, v, e));
    assert f1.data[k] == Entry(v, e);
    RunLeaves(c, compactAfter, f1, run, k);
  }

  /** And once a delete or a take has, the key stays gone until somebody puts it again. */
  lemma AcknowledgedRemovalSurvives(
    c: Codec, compactAfter: nat, f: FileState, k: Key, cmd: Command, run: seq<Event>, now: int)
    requires Sound(c) && Consistent(c, f) && cmd in {Delete(k), Take(k)}
    requires RunFits(c, compactAfter, After(c, compactAfter, f, cmd), run)
    requires forall i :: 0 <= i < |run| ==> !(run[i].cmd.Put? && run[i].cmd.key == k)
    ensures
      var data := RunFile(c, compactAfter, After(c, compactAfter, f, cmd), run).data;
      k !in data && EntryAt(data, k, now) == None
  {
    CommandCompletes(c, compactAfter, f, cmd);
    CommandMatchesMemIff(f.data, cmd);
    RunLeaves(c, compactAfter, After(c, compactAfter, f, cmd), run, k);
  }

  lemma FreshStoreConsistent(c: Codec)
    ensures Consistent(c, FileState(Disk(map[], NoTemp, []), map[], 0))
  {}

  // ---- the store itself -------------------------------------------------------------------------------

  const DEFAULT_COMPACT_AFTER: nat := 1000

  function EffectiveCompactAfter(option: int): nat
  {
    if option == 0 then DEFAULT_COMPACT_AFTER else if option < 0 then 0 else option
  }

  /** The loop of `replayLog`: reads line by line, applies, and counts the good bytes. */
  method ReplayLog(c: Codec, start: Data, log: seq<byte>) returns (data: Data, good: nat)
    ensures good == Parse(c, log).good
    ensures data == ApplyAll(start, Parse(c, log).ops)
  {
    data, good := start, 0;
    ghost var all := Parse(c, log);
    while true
      invariant good <= |log|
      invariant all.good == good + Parse(c, log[good..]).good
      invariant ApplyAll(start, all.ops) == ApplyAll(data, Parse(c, log[good..]).ops)
      decreases |log| - good
    {
      var rest := log[good..];
      var i := NewlineAt(rest);
      if i == |rest| { break; }
      var o := c.dec(rest[..i]);
      if o.None? { break; }
      data := Apply(data, o.value);
      good := good + i + 1;
      assert rest[i + 1..] == log[good..];
      assert Parse(c, rest).ops[1..] == Parse(c, log[good..]).ops;
    }
  }

  /** The loop of `loadSnapshot`, over the entries in whatever order the map yields them. */
  method LoadSnapshot(s: Snap) returns (data: Data)
    requires WellFormed(s)
    ensures data == SnapData(s)
  {
    data := map[];
    var rest := s.Keys;
    while rest != {}
      invariant rest <= s.Keys
      invariant data == map k | k in s && k !in rest :: Entry(s[k].value, ExpiryOf(s[k].e))
      decreases |rest|
    {
      var k :| k in rest;
      data := Apply(data, s[k]);
      rest := rest - {k};
    }
  }

  class File {
    const codec: Codec
    const compactAfter: nat
    var disk: Disk
    var data: Data
    var ops: nat
    var logBytes: nat
    var closed: bool
    /** Every state the disk has been in, oldest first. */
    ghost var trace: seq<Disk>

    ghost function State(): FileState
      reads this
    {
      FileState(disk, data, ops)
    }

    ghost predicate Valid()
      reads this
    {
      && Sound(codec)
      && (!closed ==> Consistent(codec, State()))
      && logBytes == |disk.log|
      && (compactAfter > 0 ==> ops < compactAfter)
    }

    /** Opening works on whatever a crash left in the log. */
    constructor Open(codec: Codec, option: int, found: Disk)
      requires Sound(codec) && WellFormed(found.snap)
      ensures Valid() && !closed && this.codec == codec && compactAfter == EffectiveCompactAfter(option)
      ensures option > 0 ==> compactAfter == option
      ensures option < 0 ==> compactAfter == 0
      ensures option == 0 ==> compactAfter == 1000
      ensures State() == FileState(Reopen(codec, found), Recover(codec, found), 0)
      ensures trace == []
    {
      var loaded := LoadSnapshot(found.snap);
      var replayed, good := ReplayLog(codec, loaded, found.log);
      this.codec := codec;
      this.compactAfter := EffectiveCompactAfter(option);
      data := replayed;
      disk := found.(log := found.log[..good]);
      logBytes := good;
      ops := 0;
      closed := false;
      trace := [];
      RecoveryIsIdempotent(codec, found);
      ApplyAllStorable(SnapData(found.snap), Parse(codec, found.log).ops);
    }

    method Append(o: Op)
      modifies this`disk, this`logBytes, this`ops, this`trace
      ensures disk == old(disk).(log := old(disk).log + Line(codec, o))
      ensures logBytes == old(logBytes) + |Line(codec, o)| && ops == old(ops) + 1
      ensures trace == old(trace) + AppendStates(old(disk), Line(codec, o))
    {
      var line := Line(codec, o);
      trace := trace + AppendStates(disk, line);
      disk := disk.(log := disk.log + line);
      logBytes := logBytes + |line|;
      ops := ops + 1;
    }

    method WriteSnapshot()
      modifies this`disk, this`logBytes, this`ops, this`trace
      ensures disk == Disk(MakeSnap(data), NoTemp, []) && logBytes == 0 && ops == 0
      ensures trace == old(trace) + CompactStates(old(disk), data)
    {
      var s := MakeSnap(data);
      disk := disk.(temp := TornTemp);
      trace := trace + [disk];
      disk := disk.(temp := WholeTemp(s));
      trace := trace + [disk];
      disk := Disk(s, NoTemp, disk.log);
      trace := trace + [disk];
      disk := disk.(log := []);
      trace := trace + [disk];
      logBytes, ops := 0, 0;
    }

    /** One logged mutation: durable first, then visible, then perhaps a snapshot. */
    method Mutate(o: Op, ghost cmd: Command)
      requires Valid() && !closed && OpsFor(data, cmd) == [o] && !cmd.Compact?
      modifies this`disk, this`data, this`logBytes, this`ops, this`trace
      ensures Valid()
      ensures State() == After(codec, compactAfter, old(State()), cmd)
      ensures trace == old(trace) + States(codec, compactAfter, old(State()), cmd)
    {
      ghost var before := State();
      CommandCompletes(codec, compactAfter, before, cmd);
      ApplyOne(data, o);
      assert [o][1..] == [];
      assert Appended(codec, disk, [o]) == Appended(codec, disk.(log := disk.log + Line(codec, o)), []);
      assert AppendAllStates(codec, disk, [o]) == AppendStates(disk, Line(codec, o)) + [];
      Append(o);
      data := Apply(data, o);
      if compactAfter > 0 && ops >= compactAfter {
        WriteSnapshot();
      }
    }

    method Get(k: Key, now: int) returns (r: Reply<Option<seq<byte>>>)
      ensures closed ==> r == Err(ErrClosed)
      ensures !closed ==> r == Ok(ValueOf(EntryAt(data, k, now)))
      ensures forall v :: r == Ok(Some(v)) <==>
        !closed && k in data && data[k].value == v && (data[k].expiresAt.Never? || now < data[k].expiresAt.nanos)
    {
      if closed { return Err(ErrClosed); }
      if k !in data || !Live(data[k].expiresAt, now) { return Ok(None); }
      r := Ok(Some(data[k].value));
    }

    method Put(k: Key, value: seq<byte>, expiresAt: Expiry) returns (r: Reply<()>)
      requires Valid()
      modifies this`disk, this`data, this`logBytes, this`ops, this`trace
      ensures Valid()
      ensures closed ==> r == Err(ErrClosed) && State() == old(State()) && trace == old(trace)
      ensures !closed ==>
        && r == Ok(())
        && State() == After(codec, compactAfter, old(State()), Command.Put(k, value, expiresAt))
        && trace == old(trace) + States(codec, compactAfter, old(State()), Command.Put(k, value, expiresAt))
    {
      if closed { return Err(ErrClosed); }
      Mutate(Op(k, value, Nanos(expiresAt), false), Command.Put(k, value, expiresAt));
      r := Ok(());
    }

    method Delete(k: Key) returns (r: Reply<()>)
      requires Valid()
      modifies this`disk, this`data, this`logBytes, this`ops, this`trace
      ensures Valid()
      ensures closed ==> r == Err(ErrClosed) && State() == old(State()) && trace == old(trace)
      ensures !closed ==>
        && r == Ok(())
        && State() == After(codec, compactAfter, old(State()), Command.Delete(k))
        && trace == old(trace) + States(codec, compactAfter, old(State()), Command.Delete(k))
    {
      if closed { return Err(ErrClosed); }
      if k in data { Mutate(Remove(k), Command.Delete(k)); }
      r := Ok(());
    }

    method Take(k: Key, now: int) returns (r: Reply<Option<seq<byte>>>)
      requires Valid()
      modifies this`disk, this`data, this`logBytes, this`ops, this`trace
      ensures Valid()
      ensures closed ==> r == Err(ErrClosed) && State() == old(State()) && trace == old(trace)
      ensures !closed ==>
        && r == Ok(ValueOf(EntryAt(old(data), k, now)))
        && State() == After(codec, compactAfter, old(State()), Command.Take(k))
        && trace == old(trace) + States(codec, compactAfter, old(State()), Command.Take(k))
      ensures forall v :: r == Ok(Some(v)) <==>
        && !closed && k in old(data) && old(data)[k].value == v
        && (old(data)[k].expiresAt.Never? || now < old(data)[k].expiresAt.nanos)
    {
      if closed { return Err(ErrClosed); }
      if k !in data { return Ok(None); }
      var e := data[k];
      Mutate(Remove(k), Command.Take(k));
      if !Live(e.expiresAt, now) { return Ok(None); }
      r := Ok(Some(e.value));
    }

    /** Lists the expired keys, logs one removal each, and snapshots at most once, at the end. */
    method Sweep(now: int) returns (r: Reply<nat>, ghost dead: seq<Key>)
      requires Valid()
      modifies this`disk, this`data, this`logBytes, this`ops, this`trace
      ensures Valid()
      ensures closed ==> r == Err(ErrClosed) && State() == old(State()) && trace == old(trace)
      ensures !closed ==>
        && r == Ok(|dead|)
        && CommandFits(old(data), Command.Sweep(now, dead))
        && State() == After(codec, compactAfter, old(State()), Command.Sweep(now, dead))
        && trace == old(trace) + States(codec, compactAfter, old(State()), Command.Sweep(now, dead))
      ensures forall k :: k in data <==>
        k in old(data) && (closed || old(data)[k].expiresAt.Never? || now < old(data)[k].expiresAt.nanos)
      ensures forall k :: k in data ==> data[k] == old(data)[k]
    {
      if closed { return Err(ErrClosed), []; }
      var gone := Dead(now);
      dead := gone;
      ghost var start := State();
      CommandCompletes(codec, compactAfter, start, Command.Sweep(now, gone));
      SweepKeepsTheUnexpired(data, now, gone);
      RemoveEach(gone);
      if compactAfter > 0 && ops >= compactAfter {
        WriteSnapshot();
      }
      r := Ok(|gone|);
    }

    method RemoveEach(gone: seq<Key>)
      requires logBytes == |disk.log|
      modifies this`disk, this`data, this`logBytes, this`ops, this`trace
      ensures ops == old(ops) + |gone| && logBytes == |disk.log|
      ensures disk == Appended(codec, old(disk), Removals(gone))
      ensures data == ApplyAll(old(data), Removals(gone))
      ensures trace == old(trace) + AppendAllStates(codec, old(disk), Removals(gone))
    {
      ghost var todo := Removals(gone);
      for i := 0 to |gone|
        invariant todo == Removals(gone[i..])
        invariant ops == old(ops) + i && logBytes == |disk.log|
        invariant Appended(codec, old(disk), Removals(gone)) == Appended(codec, disk, todo)
        invariant ApplyAll(old(data), Removals(gone)) == ApplyAll(data, todo)
        invariant old(trace) + AppendAllStates(codec, old(disk), Removals(gone))
               == trace + AppendAllStates(codec, disk, todo)
      {
        Associates(trace, AppendStates(disk, Line(codec, todo[0])),
                   AppendAllStates(codec, disk.(log := disk.log + Line(codec, todo[0])), todo[1..]));
        Append(Remove(gone[i]));
        data := Apply(data, Remove(gone[i]));
        assert todo[1..] == Removals(gone[i + 1..]);
        todo := todo[1..];
      }
    }

    method Dead(now: int) returns (dead: seq<Key>)
      ensures multiset(dead) == multiset(Expired(data, now))
    {
      dead := [];
      var rest := data.Keys;
      while rest != {}
        invariant rest <= data.Keys
        invariant multiset(dead) == multiset(Expired(data, now) - rest)
        decreases |rest|
      {
        var k :| k in rest;
        if !Live(data[k].expiresAt, now) {
          assert Expired(data, now) - (rest - {k}) == (Expired(data, now) - rest) + {k};
          dead := dead + [k];
        } else {
          assert Expired(data, now) - (rest - {k}) == Expired(data, now) - rest;
        }
        rest := rest - {k};
      }
      assert Expired(data, now) - rest == Expired(data, now);
    }

    method Compact() returns (r: Reply<()>)
      requires Valid()
      modifies this`disk, this`logBytes, this`ops, this`trace
      ensures Valid()
      ensures closed ==> r == Err(ErrClosed) && State() == old(State()) && trace == old(trace)
      ensures !closed ==>
        && r == Ok(())
        && State() == After(codec, compactAfter, old(State()), Command.Compact)
        && trace == old(trace) + States(codec, compactAfter, old(State()), Command.Compact)
    {
      if closed { return Err(ErrClosed); }
      CommandCompletes(codec, compactAfter, State(), Command.Compact);
      WriteSnapshot();
      r := Ok(());
    }

    method Close()
      requires Valid()
      modifies this`closed, this`data
      ensures Valid() && closed && disk == old(disk)
    {
      if closed { return; }
      closed := true;
      data := map[];
    }
  }
}
