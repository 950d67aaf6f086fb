/** The kernel feature store: a hash table of BPF maps, its counter and their references. */
module FStore {
  import opened Wrappers

  const FSTORE_SIZE := 256

  const ENOENT := 2
  const EBADF := 9
  const ENOMEM := 12
  const EACCES := 13
  const EEXIST := 17
  const EINVAL := 22
  const ENOSPC := 28
  const ENOKEY := 126
  const EKEYEXPIRED := 127

  type MapId = nat

  /** A map pointer, or an error encoded in one. */
  datatype MapPtr = Map(id: MapId) | ErrPtr

  datatype MapInfo = MapInfo(keySize: nat, valueSize: nat, maxEntries: nat, isArray: bool, mmapable: bool)

  /** A node records no name, so every look-up acts on the whole bucket of the name's hash. */
  type Bucket = seq<MapPtr>

  function Ref(refs: map<MapId, int>, id: MapId): int {
    if id in refs then refs[id] else 0
  }

  function Add(refs: map<MapId, int>, p: MapPtr, d: int): map<MapId, int> {
    match p
    case ErrPtr => refs
    case Map(id) => refs[id := Ref(refs, id) + d]
  }

  function AddAll(refs: map<MapId, int>, b: Bucket, d: int): map<MapId, int> {
    if b == [] then refs else Add(AddAll(refs, b[..|b| - 1], d), b[|b| - 1], d)
  }

  /** Walking a bucket adds one node's reference at a time. */
  lemma AddAllNext(refs: map<MapId, int>, bucket: Bucket, i: nat)
    requires i < |bucket|
    ensures AddAll(refs, bucket[..i + 1], 1)
         == if bucket[i].ErrPtr? then AddAll(refs, bucket[..i], 1)
            else Add(AddAll(refs, bucket[..i], 1), bucket[i], 1)
    ensures Broken(bucket[..i + 1]) <==> Broken(bucket[..i]) || bucket[i].ErrPtr?
  {
    assert bucket[..i + 1][..i] == bucket[..i];
    assert bucket[..i + 1] == bucket[..i] + [bucket[i]];
  }

  ghost predicate SameRefs(a: map<MapId, int>, b: map<MapId, int>) {
    forall id :: Ref(a, id) == Ref(b, id)
  }

  /** The module's state, with the reference counts of all maps. */
  datatype Store = Store(table: seq<Bucket>, numberMaps: int, refs: map<MapId, int>)

  predicate Shape(s: Store) {
    |s.table| == FSTORE_SIZE
  }

  // ------------------------------------------------------- the calls, on states

  function Register(s: Store, b: nat, fetched: MapPtr, kmallocOk: bool): (Store, int)
    requires Shape(s) && b < FSTORE_SIZE
  {
    if s.numberMaps + 1 >= FSTORE_SIZE then (s, -ENOSPC)
    else if s.table[b] != [] then (s, -EEXIST)
    else if fetched.ErrPtr? then (s, -EBADF)
    else if !kmallocOk then (s.(refs := Add(Add(s.refs, fetched, 1), fetched, -1)), -ENOMEM)
    else
      (Store(s.table[b := [fetched] + s.table[b]], s.numberMaps + 1, Add(s.refs, fetched, 1)), 0)
  }

  function Unregister(s: Store, b: nat): (Store, int)
    requires Shape(s) && b < FSTORE_SIZE
  {
    (Store(s.table[b := []], s.numberMaps - |s.table[b]|, AddAll(s.refs, s.table[b], -1)), |s.table[b]|)
  }

  predicate Broken(b: Bucket) {
    ErrPtr in b
  }

  /** `copied` is what copying the value gives. */
  function Get(s: Store, b: nat, info: MapId -> MapInfo, badPointers: bool, keySize: nat, valueSize: nat, copied: int)
    : (Store, int)
    requires Shape(s) && b < FSTORE_SIZE
  {
    var bucket := s.table[b];
    var t := s.(refs := AddAll(s.refs, bucket, 1));
    if Broken(bucket) then (t, -EKEYEXPIRED)
    else if bucket == [] then (t, -ENOKEY)
    else
      var last := bucket[|bucket| - 1];
      assert last in bucket;
      var m := info(last.id);
      (t.(refs := Add(t.refs, last, -1)),
       if badPointers || keySize < m.keySize || valueSize < m.valueSize then -EINVAL else copied)
  }

  /** The last part is the map whose array is handed back, on success only. */
  function GetMapArrayStart(s: Store, b: nat, info: MapId -> MapInfo, keySize: nat, valueSize: nat, numElements: nat)
    : (Store, int, Option<MapId>)
    requires Shape(s) && b < FSTORE_SIZE
  {
    var bucket := s.table[b];
    if bucket == [] then (s, -ENOENT, None)
    else if bucket[0].ErrPtr? then (s, -EKEYEXPIRED, None)
    else
      var m, t := info(bucket[0].id), s.(refs := Add(s.refs, bucket[0], 1));
      if !m.isArray then (t, -EINVAL, None)
      else if m.keySize != keySize || m.valueSize != valueSize || m.maxEntries != numElements || !m.mmapable
      then (t, -EACCES, None)
      else (t, 0, Some(bucket[0].id))
  }

  function Live(b: Bucket): nat {
    if b == [] then 0 else Live(b[..|b| - 1]) + if b[|b| - 1].Map? then 1 else 0
  }

  function PutMapArray(s: Store, b: nat): (Store, int)
    requires Shape(s) && b < FSTORE_SIZE
  {
    (s.(refs := AddAll(s.refs, s.table[b], -1)), Live(s.table[b]))
  }

  // ------------------------------------------------------- the module

  class FeatureStore {
    const hash: nat -> nat
    const info: MapId -> MapInfo
    var table: seq<Bucket>
    var numberMaps: int
    var refs: map<MapId, int>

    ghost function State(): Store
      reads this
    {
      Store(table, numberMaps, refs)
    }

    /** The 8-bit hash of a name. */
    function BucketOf(name: nat): (b: nat)
      ensures b < FSTORE_SIZE
    {
      hash(name) % FSTORE_SIZE
    }

    constructor (hash: nat -> nat, info: MapId -> MapInfo)
      ensures this.hash == hash && this.info == info
      ensures State() == Empty()
    {
      this.hash, this.info := hash, info;
      table, numberMaps, refs := NoNodes(FSTORE_SIZE), 0, map[];
    }

    method BpfMapGet(fetched: MapPtr)
      modifies this`refs
      ensures refs == Add(old(refs), fetched, 1)
    {
      if fetched.Map? {
        refs := refs[fetched.id := Ref(refs, fetched.id) + 1];
      }
    }

    method BpfMapPut(p: MapPtr)
      modifies this`refs
      ensures refs == Add(old(refs), p, -1)
    {
      if p.Map? {
        refs := refs[p.id := Ref(refs, p.id) - 1];
      }
    }

    method FstoreRegister(fetched: MapPtr, kmallocOk: bool, name: nat) returns (err: int)
      requires Shape(State())
      modifies this
      ensures (State(), err) == Register(old(State()), BucketOf(name), fetched, kmallocOk)
    {
      numberMaps := numberMaps + 1;
      var index := numberMaps;
      if index >= FSTORE_SIZE {
        numberMaps := numberMaps - 1;
        return -ENOSPC;
      }
      var b := BucketOf(name);
      var i := 0;
      while i < |table[b]|
        invariant 0 <= i <= |table[b]|
      {
        i := i + 1;
      }
      if i >= 1 {
        numberMaps := numberMaps - 1;
        return -EEXIST;
      }
      if fetched.ErrPtr? {
        numberMaps := numberMaps - 1;
        return -EBADF;
      }
      BpfMapGet(fetched);
      if !kmallocOk {
        BpfMapPut(fetched);
        numberMaps := numberMaps - 1;
        return -ENOMEM;
      }
      table := table[b := [fetched] + table[b]];
      return 0;
    }

    /** Deletes the first node of a bucket. */
    method FstoreDelete(b: nat)
      requires Shape(State()) && b < FSTORE_SIZE && table[b] != []
      modifies this
      ensures table == old(table)[b := old(table)[b][1..]] && numberMaps == old(numberMaps) - 1
      ensures refs == Add(old(refs), old(table)[b][0], -1)
    {
      var item := table[b][0];
      table := table[b := table[b][1..]];
      numberMaps := numberMaps - 1;
      if item.Map? {
        BpfMapPut(item);
      }
    }

    method FstoreUnregister(name: nat) returns (deleted: int)
      requires Shape(State())
      modifies this
      ensures (State(), deleted) == Unregister(old(State()), BucketOf(name))
    {
      deleted := DeleteBucket(BucketOf(name));
    }

    method FstoreGet(name: nat, badPointers: bool, keySize: nat, valueSize: nat, copied: int) returns (err: int)
      requires Shape(State())
      modifies this`refs
      ensures (State(), err) == Get(old(State()), BucketOf(name), info, badPointers, keySize, valueSize, copied)
    {
      var b := BucketOf(name);
      var bucket := table[b];
      var p, i := ErrPtr, 0;
      err := 0;
      while i < |bucket|
        invariant 0 <= i <= |bucket|
        invariant refs == AddAll(old(refs), bucket[..i], 1)
        invariant err == if Broken(bucket[..i]) then -EKEYEXPIRED else 0
        invariant i > 0 ==> p == bucket[i - 1]
      {
        AddAllNext(old(refs), bucket, i);
        p := bucket[i];
        i := i + 1;
        if p.ErrPtr? {
          err := -EKEYEXPIRED;
        } else {
          BpfMapGet(p);
        }
      }
      assert bucket[..|bucket|] == bucket;
      if err == -EKEYEXPIRED {
        return;
      }
      if i == 0 {
        return -ENOKEY;
      }
      assert p in bucket;
      if badPointers || keySize < info(p.id).keySize || valueSize < info(p.id).valueSize {
        err := -EINVAL;
      } else {
        err := copied;
      }
      BpfMapPut(p);
    }

    method FstoreGetMapArrayStart(name: nat, keySize: nat, valueSize: nat, numElements: nat)
      returns (err: int, mapPtr: Option<MapId>)
      requires Shape(State())
      modifies this`refs
      ensures (State(), err, mapPtr)
           == GetMapArrayStart(old(State()), BucketOf(name), info, keySize, valueSize, numElements)
    {
      var bucket := table[BucketOf(name)];
      if bucket == [] {
        return -ENOENT, None;
      }
      var p := bucket[0];
      if p.ErrPtr? {
        return -EKEYEXPIRED, None;
      }
      BpfMapGet(p);
      var m := info(p.id);
      if !m.isArray {
        return -EINVAL, None;
      }
      if m.keySize != keySize {
        return -EACCES, None;
      }
      if m.valueSize != valueSize {
        return -EACCES, None;
      }
      if m.maxEntries != numElements {
        return -EACCES, None;
      }
      if !m.mmapable {
        return -EACCES, None;
      }
      return 0, Some(p.id);
    }

    method FstorePutMapArray(name: nat) returns (released: int)
      requires Shape(State())
      modifies this`refs
      ensures (State(), released) == PutMapArray(old(State()), BucketOf(name))
    {
      var bucket := table[BucketOf(name)];
      released := 0;
      for i := 0 to |bucket|
        invariant refs == AddAll(old(refs), bucket[..i], -1)
        invariant released == Live(bucket[..i])
      {
        assert bucket[..i + 1][..i] == bucket[..i];
        released := released + 1;
        if bucket[i].ErrPtr? {
          released := released - 1;
        } else {
          BpfMapPut(bucket[i]);
        }
      }
      assert bucket[..|bucket|] == bucket;
    }

    /** Unloading deletes every node. */
    method CleanupModule()
      requires Shape(State())
      modifies this
      ensures State() == Cleanup(old(State()), FSTORE_SIZE)
    {
      for i := 0 to FSTORE_SIZE
        invariant Shape(State()) && State() == Cleanup(old(State()), i)
      {
        var _ := DeleteBucket(i);
      }
    }

    method DeleteBucket(b: nat) returns (n: nat)
      requires Shape(State()) && b < FSTORE_SIZE
      modifies this
      ensures (State(), n) == Unregister(old(State()), b)
    {
      ghost var bucket := table[b];
      n := 0;
      while table[b] != []
        invariant Shape(State()) && 0 <= n <= |bucket|
        invariant table == old(table)[b := bucket[n..]]
        invariant numberMaps == old(numberMaps) - n
        invariant refs == AddAll(old(refs), bucket[..n], -1)
        decreases |table[b]|
      {
        FstoreDelete(b);
        assert bucket[..n + 1][..n] == bucket[..n];
        n := n + 1;
      }
      assert bucket[..|bucket|] == bucket;
    }
  }

  function NoNodes(n: nat): (t: seq<Bucket>)
    ensures |t| == n && forall b :: 0 <= b < n ==> t[b] == []
  {
    if n == 0 then [] else NoNodes(n - 1) + [[]]
  }

  function Empty(): (s: Store)
    ensures Shape(s)
  {
    Store(NoNodes(FSTORE_SIZE), 0, map[])
  }

  function Cleanup(s: Store, n: nat): (t: Store)
    requires Shape(s) && n <= FSTORE_SIZE
    ensures Shape(t)
  {
    if n == 0 then s else Unregister(Cleanup(s, n - 1), n - 1).0
  }

  // ------------------------------------------------------- counting

  function Count(b: Bucket, id: MapId): nat {
    multiset(b)[Map(id)]
  }

  function Nodes(table: seq<Bucket>): nat {
    if table == [] then 0 else Nodes(table[..|table| - 1]) + |table[|table| - 1]|
  }

  /** How many nodes hold the map. */
  function Holders(table: seq<Bucket>, id: MapId): nat {
    if table == [] then 0 else Holders(table[..|table| - 1], id) + Count(table[|table| - 1], id)
  }

  lemma {:induction false} UpdateCounts(table: seq<Bucket>, b: nat, bucket: Bucket, id: MapId)
    requires b < |table|
    ensures Nodes(table[b := bucket]) == Nodes(table) - |table[b]| + |bucket|
    ensures Holders(table[b := bucket], id) == Holders(table, id) - Count(table[b], id) + Count(bucket, id)
  {
    var init, after := table[..|table| - 1], table[b := bucket];
    if b < |init| {
      UpdateCounts(init, b, bucket, id);
      assert after[..|after| - 1] == init[b := bucket];
    } else {
      assert after[..|after| - 1] == init;
    }
  }

  lemma {:induction false} AddAllCounts(refs: map<MapId, int>, b: Bucket, d: int, id: MapId)
    requires d == 1 || d == -1
    ensures Ref(AddAll(refs, b, d), id) == Ref(refs, id) + if d == 1 then Count(b, id) else 0 - Count(b, id)
  {
    if b == [] {
    } else {
      var init, last := b[..|b| - 1], b[|b| - 1];
      AddAllCounts(refs, init, d, id);
      assert b == init + [last];
      assert Count(b, id) == Count(init, id) + if last == Map(id) then 1 else 0;
    }
  }

  // ------------------------------------------------------- what every call keeps

  predicate OneLiveNode(b: Bucket) {
    |b| <= 1 && forall p :: p in b ==> p.Map?
  }

  /** At most one node per bucket, none of them an error; the counter is the number
      of nodes, at most 255. */
  predicate Registry(s: Store) {
    && Shape(s) && (forall b :: 0 <= b < FSTORE_SIZE ==> OneLiveNode(s.table[b]))
    && s.numberMaps == Nodes(s.table) && s.numberMaps < FSTORE_SIZE
  }

  /** Success needs room in the counter, an empty bucket, a map and memory; any
      failure leaves everything as it was. */
  lemma RegisterOutcome(s: Store, b: nat, fetched: MapPtr, kmallocOk: bool)
    requires Shape(s) && b < FSTORE_SIZE
    ensures var (t, err) := Register(s, b, fetched, kmallocOk);
            && (err == 0 <==> s.numberMaps < FSTORE_SIZE - 1 && s.table[b] == [] && fetched.Map? && kmallocOk)
            && (err != 0 ==> t.table == s.table && t.numberMaps == s.numberMaps && SameRefs(t.refs, s.refs))
  {
  }

  /** While a name is registered no other name of its bucket can be. */
  lemma RegisterOncePerBucket(s: Store, b: nat, p: MapPtr, q: MapPtr, kmallocOk: bool)
    requires Registry(s) && b < FSTORE_SIZE && Register(s, b, p, true).1 == 0
    ensures Register(Register(s, b, p, true).0, b, q, kmallocOk).1
         == if s.numberMaps < FSTORE_SIZE - 2 then -EEXIST else -ENOSPC
  {
  }

  /** A look-up is neutral exactly on a bucket with at most one node; on a reachable
      bucket it therefore always is, whatever it returns. */
  lemma GetNeutralIff(s: Store, b: nat, info: MapId -> MapInfo, bad: bool, keySize: nat, valueSize: nat, copied: int)
    requires Shape(s) && b < FSTORE_SIZE && !Broken(s.table[b])
    ensures var t := Get(s, b, info, bad, keySize, valueSize, copied).0;
            && t.table == s.table && t.numberMaps == s.numberMaps
            && (SameRefs(t.refs, s.refs) <==> |s.table[b]| <= 1)
  {
    var bucket := s.table[b];
    if bucket != [] {
      GetRefs(s, b, info, bad, keySize, valueSize, copied);
      if |bucket| >= 2 {
        FirstCounts(bucket);
      } else {
        assert bucket == [bucket[0]];
      }
    }
  }

  lemma GetRefs(s: Store, b: nat, info: MapId -> MapInfo, bad: bool, keySize: nat, valueSize: nat, copied: int)
    requires Shape(s) && b < FSTORE_SIZE && !Broken(s.table[b]) && s.table[b] != []
    ensures var t, bucket := Get(s, b, info, bad, keySize, valueSize, copied).0, s.table[b];
            forall id :: Ref(t.refs, id)
                         == Ref(s.refs, id) + Count(bucket, id) - if bucket[|bucket| - 1] == Map(id) then 1 else 0
  {
    var bucket := s.table[b];
    assert bucket[|bucket| - 1] in bucket;
    forall id
      ensures Ref(AddAll(s.refs, bucket, 1), id) == Ref(s.refs, id) + Count(bucket, id)
    {
      AddAllCounts(s.refs, bucket, 1, id);
    }
  }

  lemma FirstCounts(b: Bucket)
    requires |b| >= 2 && !Broken(b)
    ensures b[0].Map? && Count(b, b[0].id) > if b[|b| - 1] == b[0] then 1 else 0
  {
    assert b[0] in b;
    assert b == [b[0]] + b[1..|b| - 1] + [b[|b| - 1]];
  }

  /** The caller's buffers cannot hold a key and a value. */
  predicate TooSmall(m: MapInfo, keySize: nat, valueSize: nat) {
    keySize < m.keySize || valueSize < m.valueSize
  }

  /** On a reachable store a look-up changes no reference count, and answers from the one
      map of the bucket. */
  lemma GetOnRegistry(s: Store, b: nat, info: MapId -> MapInfo, bad: bool, keySize: nat, valueSize: nat, copied: int)
    requires Registry(s) && b < FSTORE_SIZE
    ensures var (t, err) := Get(s, b, info, bad, keySize, valueSize, copied);
            && SameRefs(t.refs, s.refs)
            && (err == if s.table[b] == [] then -ENOKEY
                       else if bad || TooSmall(info(s.table[b][0].id), keySize, valueSize) then -EINVAL else copied)
  {
    assert OneLiveNode(s.table[b]);
    GetNeutralIff(s, b, info, bad, keySize, valueSize, copied);
  }

  // ------------------------------------------------------- whole runs

  type Slot = b: nat | b < FSTORE_SIZE

  /** Calls to the module, by bucket, and references taken and dropped by others. */
  datatype Op =
    | Reg(b: Slot, fetched: MapPtr, kmallocOk: bool)
    | Unreg(b: Slot)
    | GetValue(b: Slot, badPointers: bool, keySize: nat, valueSize: nat, copied: int)
    | ArrayStart(b: Slot, keySize: nat, valueSize: nat, numElements: nat)
    | ArrayPut(b: Slot)
    | OutsideGet(id: MapId)
    | OutsidePut(id: MapId)

  function Step(s: Store, op: Op, info: MapId -> MapInfo): (t: Store)
    requires Shape(s)
    ensures Shape(t)
  {
    match op
    case Reg(b, fetched, ok) => Register(s, b, fetched, ok).0
    case Unreg(b) => Unregister(s, b).0
    case GetValue(b, bad, keySize, valueSize, copied) => Get(s, b, info, bad, keySize, valueSize, copied).0
    case ArrayStart(b, keySize, valueSize, n) => GetMapArrayStart(s, b, info, keySize, valueSize, n).0
    case ArrayPut(b) => PutMapArray(s, b).0
    case OutsideGet(id) => s.(refs := Add(s.refs, Map(id), 1))
    case OutsidePut(id) => s.(refs := Add(s.refs, Map(id), -1))
  }

  function Run(h: seq<Op>, info: MapId -> MapInfo): (s: Store)
    ensures Shape(s)
  {
    if h == [] then Empty() else Step(Run(h[..|h| - 1], info), h[|h| - 1], info)
  }

  lemma {:induction false} EmptyCounts(n: nat, id: MapId)
    ensures Nodes(NoNodes(n)) == 0 && Holders(NoNodes(n), id) == 0
  {
    if n == 0 {
    } else {
      EmptyCounts(n - 1, id);
      assert NoNodes(n)[..n - 1] == NoNodes(n - 1);
    }
  }

  lemma StepRegistry(s: Store, op: Op, info: MapId -> MapInfo)
    requires Registry(s)
    ensures Registry(Step(s, op, info))
  {
    if op.Reg? {
      UpdateCounts(s.table, op.b, [op.fetched] + s.table[op.b], 0);
    } else if op.Unreg? {
      UpdateCounts(s.table, op.b, [], 0);
    }
  }

  /** Over every sequence of calls. */
  lemma {:induction false} RegistryHolds(h: seq<Op>, info: MapId -> MapInfo)
    ensures Registry(Run(h, info))
  {
    if h == [] {
      EmptyCounts(FSTORE_SIZE, 0);
    } else {
      RegistryHolds(h[..|h| - 1], info);
      StepRegistry(Run(h[..|h| - 1], info), h[|h| - 1], info);
    }
  }

  // ------------------------------------------------------- the table by its history

  /** The map a bucket holds: that of its latest accepted registration, unless the bucket
      was unregistered since. */
  function Holding(h: seq<Op>, b: Slot): Option<MapId>
    decreases |h|, 0
  {
    if h == [] then None
    else
      var before, op := h[..|h| - 1], h[|h| - 1];
      if op == Unreg(b) then None
      else if op.Reg? && op.b == b && Accepts(before, op) then Some(op.fetched.id)
      else Holding(before, b)
  }

  /** The buckets that hold a map. */
  function Held(h: seq<Op>): set<Slot>
    decreases |h|, 1
  {
    set b: Slot | b < 256 && Holding(h, b).Some?
  }

  /** A registration after `h` is accepted: fewer than 255 maps are held, none of them in
      its bucket, the descriptor is good and memory is there. */
  predicate Accepts(h: seq<Op>, op: Op)
    requires op.Reg?
    decreases |h|, 2
  {
    |Held(h)| < 255 && Holding(h, op.b).None? && op.fetched.Map? && op.kmallocOk
  }

  function Node(held: Option<MapId>): Bucket {
    if held.Some? then [Map(held.value)] else []
  }

  /** The store holds what the history says. */
  ghost predicate Tells(s: Store, h: seq<Op>) {
    Shape(s) && (forall b: Slot :: s.table[b] == Node(Holding(h, b))) && s.numberMaps == |Held(h)|
  }

  lemma HeldNext(h: seq<Op>)
    requires h != []
    ensures var before, op := h[..|h| - 1], h[|h| - 1];
            Held(h) == if op.Reg? && Accepts(before, op) then Held(before) + {op.b}
            else if op.Unreg? then Held(before) - {op.b} else Held(before)
  {
  }

  lemma RegTells(s: Store, h: seq<Op>)
    requires h != [] && h[|h| - 1].Reg? && Tells(s, h[..|h| - 1])
    ensures var op := h[|h| - 1]; Tells(Register(s, op.b, op.fetched, op.kmallocOk).0, h)
  {
    var before, op := h[..|h| - 1], h[|h| - 1];
    HeldNext(h);
    assert s.table[op.b] == Node(Holding(before, op.b));
    assert Register(s, op.b, op.fetched, op.kmallocOk).1 == 0 <==> Accepts(before, op);
  }

  lemma UnregTells(s: Store, h: seq<Op>)
    requires h != [] && h[|h| - 1].Unreg? && Tells(s, h[..|h| - 1])
    ensures Tells(Unregister(s, h[|h| - 1].b).0, h)
  {
    HeldNext(h);
    assert s.table[h[|h| - 1].b] == Node(Holding(h[..|h| - 1], h[|h| - 1].b));
  }

  lemma OthersTell(s: Store, t: Store, h: seq<Op>)
    requires h != [] && !h[|h| - 1].Reg? && !h[|h| - 1].Unreg? && Tells(s, h[..|h| - 1])
    requires t.table == s.table && t.numberMaps == s.numberMaps
    ensures Tells(t, h)
  {
    HeldNext(h);
  }

  lemma TellsNext(s: Store, h: seq<Op>, info: MapId -> MapInfo)
    requires h != [] && Tells(s, h[..|h| - 1])
    ensures Tells(Step(s, h[|h| - 1], info), h)
  {
    var op := h[|h| - 1];
    if op.Reg? {
      RegTells(s, h);
    } else if op.Unreg? {
      UnregTells(s, h);
    } else {
      OthersTell(s, Step(s, op, info), h);
    }
  }

  /** Over every run, each bucket holds the map that the history says, and the counter is
      the number of buckets that hold one. */
  lemma {:induction false} TableIsHistory(h: seq<Op>, info: MapId -> MapInfo)
    ensures Tells(Run(h, info), h)
  {
    if h == [] {
      assert Held(h) == {};
    } else {
      TableIsHistory(h[..|h| - 1], info);
      TellsNext(Run(h[..|h| - 1], info), h, info);
    }
  }

  /** The buckets that hold one map. */
  function HeldIn(h: seq<Op>, id: MapId): set<Slot> {
    set b: Slot | b < 256 && Holding(h, b) == Some(id)
  }

  /** The buckets among the first `n` whose one node holds the map. */
  function NodesOf(table: seq<Bucket>, id: MapId, n: nat): set<nat>
    requires n <= |table|
  {
    set b: nat | b < n && table[b] == [Map(id)]
  }

  lemma NodesOfNext(table: seq<Bucket>, id: MapId, n: nat)
    requires |table| == n + 1
    ensures |NodesOf(table, id, n + 1)| == |NodesOf(table[..n], id, n)| + if table[n] == [Map(id)] then 1 else 0
  {
    assert NodesOf(table, id, n + 1) == NodesOf(table[..n], id, n) + if table[n] == [Map(id)] then {n} else {};
  }

  lemma {:induction false} HoldersAreBuckets(table: seq<Bucket>, id: MapId, n: nat)
    requires n == |table| && forall b :: 0 <= b < n ==> OneLiveNode(table[b])
    ensures Holders(table, id) == |NodesOf(table, id, n)|
  {
    if n > 0 {
      HoldersAreBuckets(table[..n - 1], id, n - 1);
      NodesOfNext(table, id, n - 1);
      OneNodeCount(table[n - 1], id);
    }
  }

  lemma OneNodeCount(b: Bucket, id: MapId)
    requires OneLiveNode(b)
    ensures Count(b, id) == if b == [Map(id)] then 1 else 0
  {
    assert b == [] || b == [b[0]];
  }

  /** The nodes of a map are in the buckets that hold it. */
  lemma HoldersAreHistory(h: seq<Op>, info: MapId -> MapInfo, id: MapId)
    ensures Holders(Run(h, info).table, id) == |HeldIn(h, id)|
  {
    var table := Run(h, info).table;
    TableIsHistory(h, info);
    RegistryHolds(h, info);
    HoldersAreBuckets(table, id, FSTORE_SIZE);
    forall b: Slot
      ensures b in NodesOf(table, id, FSTORE_SIZE) <==> b in HeldIn(h, id)
    {
      assert table[b] == Node(Holding(h, b));
    }
    assert forall b :: b in NodesOf(table, id, FSTORE_SIZE) ==> b < 256;
    assert NodesOf(table, id, FSTORE_SIZE) == HeldIn(h, id);
  }

  /** References others hold, by the history. */
  function Outside(h: seq<Op>, id: MapId): int {
    if h == [] then 0
    else
      Outside(h[..|h| - 1], id)
      + (if h[|h| - 1] == OutsideGet(id) then 1 else if h[|h| - 1] == OutsidePut(id) then -1 else 0)
  }

  /** Whether `id` is the map registered in bucket `b`. */
  predicate Registered(s: Store, b: nat, id: MapId)
    requires Shape(s) && b < FSTORE_SIZE
  {
    Map(id) in s.table[b]
  }

  /** Array starts that took a reference on `id`, whatever they then returned. */
  function Starts(h: seq<Op>, id: MapId): nat {
    if h == [] then 0
    else
      var before, op := h[..|h| - 1], h[|h| - 1];
      Starts(before, id) + if op.ArrayStart? && Holding(before, op.b) == Some(id) then 1 else 0
  }

  /** Array puts that dropped a reference on `id`. */
  function Puts(h: seq<Op>, id: MapId): nat {
    if h == [] then 0
    else
      var before, op := h[..|h| - 1], h[|h| - 1];
      Puts(before, id) + if op.ArrayPut? && Holding(before, op.b) == Some(id) then 1 else 0
  }

  lemma RegisteredCounts(s: Store, b: nat, id: MapId)
    requires Registry(s) && b < FSTORE_SIZE
    ensures Count(s.table[b], id) == if Registered(s, b, id) then 1 else 0
  {
    assert OneLiveNode(s.table[b]);
    if s.table[b] != [] {
      assert s.table[b] == [s.table[b][0]];
    }
  }

  /** The caller knows the map's exact limits. */
  predicate Knows(m: MapInfo, keySize: nat, valueSize: nat, numElements: nat) {
    m.isArray && m.mmapable && m == m.(keySize := keySize, valueSize := valueSize, maxEntries := numElements)
  }

  /** An array start succeeds exactly for a caller that knows the registered map - but
      takes its reference even when it then fails. */
  lemma ArrayStartOutcome(s: Store, b: nat, info: MapId -> MapInfo, keySize: nat, valueSize: nat, n: nat, id: MapId)
    requires Registry(s) && b < FSTORE_SIZE && Registered(s, b, id)
    ensures var (t, err, start) := GetMapArrayStart(s, b, info, keySize, valueSize, n);
            && (err == 0 <==> Knows(info(id), keySize, valueSize, n))
            && start == (if err == 0 then Some(id) else None)
            && t.table == s.table && Ref(t.refs, id) == Ref(s.refs, id) + 1
            && forall x :: x != id ==> Ref(t.refs, x) == Ref(s.refs, x)
  {
    assert OneLiveNode(s.table[b]);
    assert s.table[b] == [s.table[b][0]];
  }

  /** References held on `id` by anyone but the nodes. */
  function Loose(s: Store, id: MapId): int {
    Ref(s.refs, id) - Holders(s.table, id)
  }

  /** The change one call makes to them. */
  function Loosened(s: Store, op: Op, id: MapId): int
    requires Shape(s)
  {
    match op
    case OutsideGet(x) => if x == id then 1 else 0
    case OutsidePut(x) => if x == id then -1 else 0
    case ArrayStart(b, _, _, _) => if Registered(s, b, id) then 1 else 0
    case ArrayPut(b) => if Registered(s, b, id) then -1 else 0
    case _ => 0
  }

  lemma NodeRefs(s: Store, op: Op, info: MapId -> MapInfo, id: MapId)
    requires Registry(s) && (op.Reg? || op.Unreg?)
    ensures Loose(Step(s, op, info), id) == Loose(s, id)
  {
    var bucket := s.table[op.b];
    assert OneLiveNode(bucket);
    if op.Reg? {
      UpdateCounts(s.table, op.b, [op.fetched] + bucket, id);
      RegisterOutcome(s, op.b, op.fetched, op.kmallocOk);
    } else {
      UpdateCounts(s.table, op.b, [], id);
      AddAllCounts(s.refs, bucket, -1, id);
    }
  }

  lemma ArrayRefs(s: Store, op: Op, info: MapId -> MapInfo, id: MapId)
    requires Registry(s) && (op.ArrayStart? || op.ArrayPut?)
    ensures Loose(Step(s, op, info), id) == Loose(s, id) + Loosened(s, op, id)
  {
    var bucket := s.table[op.b];
    assert OneLiveNode(bucket);
    RegisteredCounts(s, op.b, id);
    if op.ArrayStart? {
      assert bucket == [] || bucket == [bucket[0]];
    } else {
      AddAllCounts(s.refs, bucket, -1, id);
    }
  }

  lemma StepRefs(s: Store, op: Op, info: MapId -> MapInfo, id: MapId)
    requires Registry(s)
    ensures Loose(Step(s, op, info), id) == Loose(s, id) + Loosened(s, op, id)
  {
    match op {
      case Reg(_, _, _) => NodeRefs(s, op, info, id);
      case Unreg(_) => NodeRefs(s, op, info, id);
      case GetValue(b, bad, keySize, valueSize, copied) =>
        GetOnRegistry(s, b, info, bad, keySize, valueSize, copied);
      case ArrayStart(_, _, _, _) => ArrayRefs(s, op, info, id);
      case ArrayPut(_) => ArrayRefs(s, op, info, id);
      case _ =>
    }
  }

  lemma {:induction false} LooseIsLedger(h: seq<Op>, info: MapId -> MapInfo, id: MapId)
    ensures Loose(Run(h, info), id) == Outside(h, id) + Starts(h, id) - Puts(h, id)
  {
    if h == [] {
      EmptyCounts(FSTORE_SIZE, id);
    } else {
      var before, op := h[..|h| - 1], h[|h| - 1];
      LooseIsLedger(before, info, id);
      RegistryHolds(before, info);
      StepRefs(Run(before, info), op, info, id);
      if op.ArrayStart? || op.ArrayPut? {
        TableIsHistory(before, info);
        assert Run(before, info).table[op.b] == Node(Holding(before, op.b));
      }
    }
  }

  /** Every map's reference count is what others hold, plus the buckets holding it, plus
      array starts minus array puts on it, all of them by the history. */
  lemma LedgerBalances(h: seq<Op>, info: MapId -> MapInfo, id: MapId)
    ensures Ref(Run(h, info).refs, id) == Outside(h, id) + |HeldIn(h, id)| + Starts(h, id) - Puts(h, id)
  {
    LooseIsLedger(h, info, id);
    HoldersAreHistory(h, info, id);
  }

  /** A registered map stays referenced while outsiders drop only what they took and
      array puts do not outnumber array starts. */
  lemma RegisteredMapStaysReferenced(h: seq<Op>, info: MapId -> MapInfo, b: Slot, id: MapId)
    requires Holding(h, b) == Some(id)
    requires Outside(h, id) >= 0 && Puts(h, id) <= Starts(h, id)
    ensures Ref(Run(h, info).refs, id) >= 1
  {
    LedgerBalances(h, info, id);
    assert b in HeldIn(h, id);
  }

  /** Descriptor 7 is open while its map is registered and then closed; one array put
      without a start follows. */
  const UNMATCHED := [OutsideGet(7), Reg(3, Map(7), true), OutsidePut(7), ArrayPut(3)]

  lemma BeforeUnmatched(info: MapId -> MapInfo)
    ensures Run(UNMATCHED[..3], info).table[3] == [Map(7)] && Ref(Run(UNMATCHED[..3], info).refs, 7) == 1
  {
    var h := UNMATCHED[..3];
    assert h[..2] == UNMATCHED[..2] && h[..2][..1] == UNMATCHED[..1] && h[..2][..1][..0] == [];
    var s := Run(UNMATCHED[..1], info);
    assert Run(UNMATCHED[..1][..0], info) == Empty() && UNMATCHED[..1][..0] == [];
    assert s == Step(Empty(), OutsideGet(7), info);
    assert Run(UNMATCHED[..2], info) == Step(s, Reg(3, Map(7), true), info);
  }

  /** The put drops the table's own reference: the map stays registered with none left. */
  lemma UnmatchedPutDangles(info: MapId -> MapInfo)
    ensures Outside(UNMATCHED, 7) == 0
    ensures var s := Run(UNMATCHED, info); Registered(s, 3, 7) && Ref(s.refs, 7) == 0
  {
    var s := Run(UNMATCHED[..3], info);
    BeforeUnmatched(info);
    AddAllCounts(s.refs, s.table[3], -1, 7);
    assert Outside(UNMATCHED[..1], 7) == 1 by {
      assert UNMATCHED[..1][..0] == [];
    }
    assert UNMATCHED[..2][..1] == UNMATCHED[..1] && UNMATCHED[..3][..2] == UNMATCHED[..2];
  }

  /** Unloading empties the table and gives back exactly the nodes' references. */
  lemma {:induction false} CleanupReturnsRefs(s: Store, n: nat, id: MapId)
    requires Registry(s) && n <= FSTORE_SIZE
    ensures forall b :: 0 <= b < FSTORE_SIZE ==> Cleanup(s, n).table[b] == if b < n then [] else s.table[b]
    ensures Cleanup(s, n).numberMaps == Nodes(Cleanup(s, n).table)
    ensures Ref(Cleanup(s, n).refs, id) - Holders(Cleanup(s, n).table, id) == Ref(s.refs, id) - Holders(s.table, id)
  {
    CleanupTable(s, n);
    if n == 0 {
    } else {
      CleanupReturnsRefs(s, n - 1, id);
      CleanBucketReturnsRefs(Cleanup(s, n - 1), n - 1, id);
    }
  }

  lemma {:induction false} CleanupTable(s: Store, n: nat)
    requires Shape(s) && n <= FSTORE_SIZE
    ensures forall b :: 0 <= b < FSTORE_SIZE ==> Cleanup(s, n).table[b] == if b < n then [] else s.table[b]
  {
    if n == 0 {
    } else {
      CleanupTable(s, n - 1);
    }
  }

  /** One bucket of it. */
  lemma CleanBucketReturnsRefs(t: Store, b: nat, id: MapId)
    requires Shape(t) && b < FSTORE_SIZE && t.numberMaps == Nodes(t.table)
    ensures var u := Unregister(t, b).0;
            u.table == t.table[b := []] && u.numberMaps == Nodes(u.table)
            && Ref(u.refs, id) - Holders(u.table, id) == Ref(t.refs, id) - Holders(t.table, id)
  {
    UpdateCounts(t.table, b, [], id);
    AddAllCounts(t.refs, t.table[b], -1, id);
  }

  lemma CleanupEmpties(s: Store, id: MapId)
    requires Registry(s)
    ensures var t := Cleanup(s, FSTORE_SIZE);
            t.table == NoNodes(FSTORE_SIZE) && t.numberMaps == 0
            && Ref(t.refs, id) == Ref(s.refs, id) - Holders(s.table, id)
  {
    CleanupReturnsRefs(s, FSTORE_SIZE, id);
    assert Cleanup(s, FSTORE_SIZE).table == NoNodes(FSTORE_SIZE);
    EmptyCounts(FSTORE_SIZE, id);
  }

  // ------------------------------------------------------- answers by the history

  /** What a call returns. */
  function Reply(s: Store, op: Op, info: MapId -> MapInfo): (int, Option<MapId>)
    requires Shape(s) && !op.OutsideGet? && !op.OutsidePut?
  {
    match op
    case Reg(b, fetched, ok) => (Register(s, b, fetched, ok).1, None)
    case Unreg(b) => (Unregister(s, b).1, None)
    case GetValue(b, bad, keySize, valueSize, copied) => (Get(s, b, info, bad, keySize, valueSize, copied).1, None)
    case ArrayStart(b, keySize, valueSize, n) =>
      var start := GetMapArrayStart(s, b, info, keySize, valueSize, n); (start.1, start.2)
    case ArrayPut(b) => (PutMapArray(s, b).1, None)
  }

  /** What it should return when its bucket holds `held` and `n` buckets hold a map. */
  function Due(held: Option<MapId>, n: nat, op: Op, info: MapId -> MapInfo): (int, Option<MapId>)
    requires !op.OutsideGet? && !op.OutsidePut?
  {
    match op
    case Reg(_, fetched, ok) =>
      (if n >= 255 then -28
       else if held.Some? then -17
       else if fetched.ErrPtr? then -9
       else if !ok then -12 else 0, None)
    case Unreg(_) => (if held.Some? then 1 else 0, None)
    case GetValue(_, bad, keySize, valueSize, copied) =>
      (if held.None? then -126
       else if bad || keySize < info(held.value).keySize || valueSize < info(held.value).valueSize then -22
       else copied, None)
    case ArrayStart(_, keySize, valueSize, size) =>
      if held.None? then (-2, None)
      else if !info(held.value).isArray then (-22, None)
      else if Knows(info(held.value), keySize, valueSize, size) then (0, held) else (-13, None)
    case ArrayPut(_) => (if held.Some? then 1 else 0, None)
  }

  /** A bucket with an error pointer, which no run has, answers -127 to look-ups; an array
      put counts its live nodes. */
  lemma BrokenReplies(s: Store, op: Op, info: MapId -> MapInfo)
    requires Shape(s) && !op.OutsideGet? && !op.OutsidePut?
    ensures op.GetValue? && ErrPtr in s.table[op.b] ==> Reply(s, op, info) == (-127, None)
    ensures op.ArrayStart? && s.table[op.b] != [] && s.table[op.b][0] == ErrPtr ==> Reply(s, op, info) == (-127, None)
    ensures op.ArrayPut? ==> Reply(s, op, info).0 == |LiveAt(s.table[op.b])|
  {
    LiveIsSize(s.table[op.b]);
  }

  function LiveAt(b: Bucket): set<nat> {
    set i: nat | i < |b| && b[i].Map?
  }

  lemma {:induction false} LiveIsSize(b: Bucket)
    ensures Live(b) == |LiveAt(b)|
  {
    if b != [] {
      var n := |b| - 1;
      LiveIsSize(b[..n]);
      assert LiveAt(b) == LiveAt(b[..n]) + if b[n].Map? then {n} else {};
    }
  }

  lemma ReplyIsDue(s: Store, held: Option<MapId>, n: nat, op: Op, info: MapId -> MapInfo)
    requires !op.OutsideGet? && !op.OutsidePut?
    requires Shape(s) && s.table[op.b] == Node(held) && s.numberMaps == n
    ensures Reply(s, op, info) == Due(held, n, op, info)
  {
    var bucket := s.table[op.b];
    if bucket != [] {
      assert bucket == [bucket[0]] && bucket[..0] == [];
      assert Live(bucket) == 1;
    }
  }

  /** Over every run, each call returns what the history says. */
  lemma RepliesAreHistory(h: seq<Op>, op: Op, info: MapId -> MapInfo)
    requires !op.OutsideGet? && !op.OutsidePut?
    ensures Reply(Run(h, info), op, info) == Due(Holding(h, op.b), |Held(h)|, op, info)
  {
    TableIsHistory(h, info);
    ReplyIsDue(Run(h, info), Holding(h, op.b), |Held(h)|, op, info);
  }
}
