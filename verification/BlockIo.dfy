/** Block-IO accounting: queue lengths per device, and a table of requests seen issued. */
module BlockIo {
  import opened Sums

  const U32 := 0x1_0000_0000
  const I32_MAX := 0x7fff_ffff
  const MAX_STARTED := 1024

  type U32Val = n: nat | n < U32

  /** Two's-complement 32-bit wrap-around. */
  function Wrap32(n: int): (r: int)
    ensures -0x8000_0000 <= r <= I32_MAX
    ensures (n - r) % 0x1_0000_0000 == 0
    ensures -0x8000_0000 <= n <= I32_MAX ==> r == n
  {
    (n + 0x8000_0000) % U32 - 0x8000_0000
  }

  /** `(bytes + 4095) >> 12` on a u32. */
  function Block4kIos(bytes: U32Val): (n: nat)
    ensures n < 0x10_0000
  {
    (bytes + 4095) % U32 / 4096
  }

  /** The count is the number of 4K blocks rounded up, exactly when the addition does
      not wrap; else it is 0. */
  lemma Block4kIosIff(bytes: U32Val)
    ensures Block4kIos(bytes) == (bytes + 4095) / 4096 <==> bytes <= 0x1_0000_0000 - 4096
    ensures bytes > 0x1_0000_0000 - 4096 ==> Block4kIos(bytes) == 0
  {
  }

  datatype Key = Key(dev: U32Val, sector: nat)

  /** What the probes read from a request. */
  datatype Request = Request(key: Key, bytes: U32Val, segments: nat)

  /** Segment counts are unsigned shorts. */
  predicate Legal(r: Request) {
    r.segments < 0x1_0000
  }

  datatype QueueLengths = QueueLengths(segments: int, blocks: int)

  const NO_QUEUE := QueueLengths(0, 0)

  /** The two BPF hashes.  `started` maps a request's key to its 4K blocks. */
  datatype Queues = Queues(deviceQueue: map<U32Val, QueueLengths>, started: map<Key, nat>)

  function QueueOf(s: Queues, dev: U32Val): QueueLengths {
    if dev in s.deviceQueue then s.deviceQueue[dev] else NO_QUEUE
  }

  function Grow(q: QueueLengths, r: Request, sign: int): QueueLengths {
    QueueLengths(Wrap32(q.segments + sign * r.segments), Wrap32(q.blocks + sign * Block4kIos(r.bytes)))
  }

  /** An update of a full table fails silently. */
  function Insert(started: map<Key, nat>, k: Key, blocks: nat): map<Key, nat> {
    if k in started || |started| < MAX_STARTED then started[k := blocks] else started
  }

  function Issue(s: Queues, r: Request): Queues {
    var dev := r.key.dev;
    Queues(s.deviceQueue[dev := Grow(QueueOf(s, dev), r, 1)], Insert(s.started, r.key, Block4kIos(r.bytes)))
  }

  function Complete(s: Queues, r: Request): Queues {
    if r.key.dev !in s.deviceQueue || r.key !in s.started then s
    else Queues(s.deviceQueue[r.key.dev := Grow(s.deviceQueue[r.key.dev], r, -1)], s.started - {r.key})
  }

  datatype StartEvent = StartEvent(key: Key, segments: nat, bytes: nat, queueSegments: int, queue4ks: int)

  datatype EndEvent = EndEvent(key: Key, segments: nat, bytes: nat)

  class BlockIoProbes {
    var deviceQueue: map<U32Val, QueueLengths>
    var started4kIos: map<Key, nat>
    var blockIoStarts: seq<StartEvent>
    var blockIoEnds: seq<EndEvent>

    ghost function State(): Queues
      reads this
    {
      Queues(deviceQueue, started4kIos)
    }

    constructor ()
      ensures State() == Queues(map[], map[]) && blockIoStarts == [] && blockIoEnds == []
    {
      deviceQueue, started4kIos, blockIoStarts, blockIoEnds := map[], map[], [], [];
    }

    method BlockRqIssue(r: Request)
      modifies this
      ensures State() == Issue(old(State()), r)
      ensures var q := QueueOf(State(), r.key.dev);
              blockIoStarts == old(blockIoStarts) + [StartEvent(r.key, r.segments, r.bytes, q.segments, q.blocks)]
      ensures blockIoEnds == old(blockIoEnds)
    {
      var dev := r.key.dev;
      if dev !in deviceQueue {
        deviceQueue := deviceQueue[dev := NO_QUEUE];
      }
      var blocks := Block4kIos(r.bytes);
      if r.key in started4kIos || |started4kIos| < MAX_STARTED {
        started4kIos := started4kIos[r.key := blocks];
      }
      var q := deviceQueue[dev];
      q := q.(blocks := Wrap32(q.blocks + blocks));
      q := q.(segments := Wrap32(q.segments + r.segments));
      deviceQueue := deviceQueue[dev := q];
      blockIoStarts := blockIoStarts + [StartEvent(r.key, r.segments, r.bytes, q.segments, q.blocks)];
    }

    method BlockRqComplete(r: Request)
      modifies this
      ensures State() == Complete(old(State()), r)
      ensures blockIoEnds == old(blockIoEnds) + [EndEvent(r.key, r.segments, r.bytes)]
      ensures blockIoStarts == old(blockIoStarts)
    {
      blockIoEnds := blockIoEnds + [EndEvent(r.key, r.segments, r.bytes)];
      var dev := r.key.dev;
      if dev !in deviceQueue {
        return;
      }
      if r.key !in started4kIos {
        return;
      }
      started4kIos := started4kIos - {r.key};
      var blocks := Block4kIos(r.bytes);
      var q := deviceQueue[dev];
      q := q.(blocks := Wrap32(q.blocks - blocks));
      q := q.(segments := Wrap32(q.segments - r.segments));
      deviceQueue := deviceQueue[dev := q];
    }
  }

  // ------------------------------------------------------- the tracked requests

  /** 4K blocks and segments of the requests on one device. */
  function BlocksOn(reqs: map<Key, Request>, dev: U32Val): map<Key, int> {
    map k | k in reqs && k.dev == dev :: Block4kIos(reqs[k].bytes)
  }

  function SegmentsOn(reqs: map<Key, Request>, dev: U32Val): map<Key, int> {
    map k | k in reqs && k.dev == dev :: reqs[k].segments
  }

  ghost function SumsOn(reqs: map<Key, Request>, dev: U32Val): QueueLengths {
    QueueLengths(Total(SegmentsOn(reqs, dev)), Total(BlocksOn(reqs, dev)))
  }

  /** The table tracks exactly `reqs`, each with its 4K blocks. */
  ghost predicate Tracks(s: Queues, reqs: map<Key, Request>) {
    && s.started.Keys == reqs.Keys && |reqs| <= 1024
    && (forall k :: k in reqs ==> reqs[k].key == k && Legal(reqs[k]) && k.dev in s.deviceQueue)
    && (forall k :: k in reqs ==> s.started[k] == Block4kIos(reqs[k].bytes))
  }

  /** Every device's two queue lengths are the sums over its tracked requests. */
  ghost predicate Balanced(s: Queues, reqs: map<Key, Request>) {
    forall dev :: QueueOf(s, dev) == SumsOn(reqs, dev)
  }

  lemma OnDevice(reqs: map<Key, Request>, dev: U32Val)
    ensures |BlocksOn(reqs, dev)| <= |reqs| && |SegmentsOn(reqs, dev)| <= |reqs|
  {
    SubsetSize(BlocksOn(reqs, dev).Keys, reqs.Keys);
    SubsetSize(SegmentsOn(reqs, dev).Keys, reqs.Keys);
  }

  lemma {:induction false} SubsetSize<T>(a: set<T>, b: set<T>)
    requires a <= b
    ensures |a| <= |b|
  {
    if a == {} {
    } else {
      var x :| x in a;
      SubsetSize(a - {x}, b - {x});
    }
  }

  /** Sums over tracked requests stay far from the 32-bit limits. */
  lemma SumsSmall(reqs: map<Key, Request>, dev: U32Val)
    requires |reqs| <= MAX_STARTED && forall k :: k in reqs ==> Legal(reqs[k])
    ensures 0 <= SumsOn(reqs, dev).segments <= MAX_STARTED * 0x1_0000
    ensures 0 <= SumsOn(reqs, dev).blocks <= MAX_STARTED * 0x10_0000
  {
    OnDevice(reqs, dev);
    TotalBounds(SegmentsOn(reqs, dev), MAX_STARTED, 0x1_0000);
    TotalBounds(BlocksOn(reqs, dev), MAX_STARTED, 0x10_0000);
  }

  function Blocks(reqs: map<Key, Request>, k: Key): nat {
    if k in reqs then Block4kIos(reqs[k].bytes) else 0
  }

  function Segments(reqs: map<Key, Request>, k: Key): nat {
    if k in reqs then reqs[k].segments else 0
  }

  lemma SegmentsAdd(reqs: map<Key, Request>, r: Request, dev: U32Val)
    ensures Total(SegmentsOn(reqs[r.key := r], dev))
         == Total(SegmentsOn(reqs, dev)) + if dev == r.key.dev then r.segments - Segments(reqs, r.key) else 0
  {
    var more := SegmentsOn(reqs[r.key := r], dev);
    if dev == r.key.dev {
      TotalUpdate(SegmentsOn(reqs, dev), r.key, r.segments);
      assert more == SegmentsOn(reqs, dev)[r.key := r.segments];
    } else {
      assert more == SegmentsOn(reqs, dev);
    }
  }

  lemma BlocksAdd(reqs: map<Key, Request>, r: Request, dev: U32Val)
    ensures Total(BlocksOn(reqs[r.key := r], dev))
         == Total(BlocksOn(reqs, dev)) + if dev == r.key.dev then Block4kIos(r.bytes) - Blocks(reqs, r.key) else 0
  {
    var more := BlocksOn(reqs[r.key := r], dev);
    if dev == r.key.dev {
      TotalUpdate(BlocksOn(reqs, dev), r.key, Block4kIos(r.bytes));
      assert more == BlocksOn(reqs, dev)[r.key := Block4kIos(r.bytes)];
    } else {
      assert more == BlocksOn(reqs, dev);
    }
  }

  lemma SumsAdd(reqs: map<Key, Request>, r: Request, dev: U32Val)
    ensures SumsOn(reqs[r.key := r], dev)
         == if dev == r.key.dev
            then QueueLengths(SumsOn(reqs, dev).segments - Segments(reqs, r.key) + r.segments,
                              SumsOn(reqs, dev).blocks - Blocks(reqs, r.key) + Block4kIos(r.bytes))
            else SumsOn(reqs, dev)
  {
    SegmentsAdd(reqs, r, dev);
    BlocksAdd(reqs, r, dev);
  }

  lemma SumsRemove(reqs: map<Key, Request>, k: Key, dev: U32Val)
    requires k in reqs
    ensures SumsOn(reqs - {k}, dev)
         == if dev == k.dev
            then QueueLengths(SumsOn(reqs, dev).segments - Segments(reqs, k),
                              SumsOn(reqs, dev).blocks - Blocks(reqs, k))
            else SumsOn(reqs, dev)
  {
    var fewer := reqs - {k};
    if dev == k.dev {
      TotalTake(SegmentsOn(reqs, dev), k);
      TotalTake(BlocksOn(reqs, dev), k);
      assert SegmentsOn(fewer, dev) == SegmentsOn(reqs, dev) - {k};
      assert BlocksOn(fewer, dev) == BlocksOn(reqs, dev) - {k};
    } else {
      assert SegmentsOn(fewer, dev) == SegmentsOn(reqs, dev);
      assert BlocksOn(fewer, dev) == BlocksOn(reqs, dev);
    }
  }

  /** The requests tracked after an issue. */
  function AfterIssue(reqs: map<Key, Request>, r: Request): map<Key, Request> {
    if r.key in reqs || |reqs| < 1024 then reqs[r.key := r] else reqs
  }

  /** What the accounting loses: the request whose entry is overwritten, or the one
      that finds the table full, if it has any blocks or segments. */
  predicate LosesTrack(reqs: map<Key, Request>, r: Request) {
    if r.key in reqs then Blocks(reqs, r.key) != 0 || Segments(reqs, r.key) != 0
    else |reqs| >= 1024 && (Block4kIos(r.bytes) != 0 || r.segments != 0)
  }

  /** An issue keeps the balance exactly when it loses track of nothing. */
  lemma IssueBalancedIff(s: Queues, reqs: map<Key, Request>, r: Request)
    requires Tracks(s, reqs) && Balanced(s, reqs) && Legal(r)
    ensures Tracks(Issue(s, r), AfterIssue(reqs, r))
    ensures Balanced(Issue(s, r), AfterIssue(reqs, r)) <==> !LosesTrack(reqs, r)
  {
    var dev, t, after := r.key.dev, Issue(s, r), AfterIssue(reqs, r);
    IssueTracks(s, reqs, r);
    IssueOnDevice(s, reqs, r);
    forall d | d != dev
      ensures QueueOf(t, d) == SumsOn(after, d)
    {
      assert QueueOf(s, d) == SumsOn(reqs, d);
      SumsAdd(reqs, r, d);
    }
    if Balanced(t, after) {
      assert QueueOf(t, dev) == SumsOn(after, dev);
    }
  }

  /** On the request's own device the lengths stay right exactly when nothing is lost. */
  lemma IssueOnDevice(s: Queues, reqs: map<Key, Request>, r: Request)
    requires Tracks(s, reqs) && Balanced(s, reqs) && Legal(r)
    ensures QueueOf(Issue(s, r), r.key.dev) == SumsOn(AfterIssue(reqs, r), r.key.dev) <==> !LosesTrack(reqs, r)
  {
    assert QueueOf(s, r.key.dev) == SumsOn(reqs, r.key.dev);
    SumsSmall(reqs, r.key.dev);
    SumsAdd(reqs, r, r.key.dev);
  }

  /** Two requests issued with one device and sector: the queue counts both, the table
      tracks one. */
  lemma SameSectorCountsTwice()
    ensures var r := Request(Key(1, 7), 4096, 1);
            var t := Issue(Issue(Queues(map[], map[]), r), r);
            QueueOf(t, 1) == QueueLengths(2, 2) && t.started == map[Key(1, 7) := 1]
            && QueueOf(Complete(t, r), 1) == QueueLengths(1, 1) && Complete(t, r).started == map[]
  {
    var r := Request(Key(1, 7), 4096, 1);
    var s := Issue(Queues(map[], map[]), r);
    assert s.started == map[r.key := 1] && QueueOf(s, 1) == QueueLengths(1, 1);
    assert Issue(s, r).started == map[r.key := 1];
  }

  lemma IssueTracks(s: Queues, reqs: map<Key, Request>, r: Request)
    requires Tracks(s, reqs) && Legal(r)
    ensures Tracks(Issue(s, r), AfterIssue(reqs, r)) && |s.started| == |reqs|
  {
    assert |s.started| == |s.started.Keys| == |reqs.Keys| == |reqs|;
    assert r.key !in reqs ==> |reqs[r.key := r]| == |reqs| + 1;
    assert r.key in reqs ==> reqs[r.key := r].Keys == reqs.Keys;
  }

  /** A completion takes away the blocks and segments the request was tracked with, or is
      of a request that is not tracked. */
  predicate TakesItsOwn(reqs: map<Key, Request>, r: Request) {
    r.key in reqs ==> Block4kIos(r.bytes) == Blocks(reqs, r.key) && r.segments == Segments(reqs, r.key)
  }

  lemma CompleteTracks(s: Queues, reqs: map<Key, Request>, r: Request)
    requires Tracks(s, reqs)
    ensures Tracks(Complete(s, r), reqs - {r.key})
    ensures r.key !in reqs ==> Complete(s, r) == s && reqs - {r.key} == reqs
  {
    if r.key in reqs {
      assert |reqs - {r.key}| == |reqs| - 1;
    } else {
      assert reqs - {r.key} == reqs;
    }
  }

  /** The request's own device. */
  lemma CompleteOnDevice(s: Queues, reqs: map<Key, Request>, r: Request)
    requires Tracks(s, reqs) && Balanced(s, reqs) && Legal(r) && r.key in reqs
    ensures QueueOf(Complete(s, r), r.key.dev) == SumsOn(reqs - {r.key}, r.key.dev) <==> TakesItsOwn(reqs, r)
  {
    assert QueueOf(s, r.key.dev) == SumsOn(reqs, r.key.dev);
    SumsSmall(reqs, r.key.dev);
    SumsRemove(reqs, r.key, r.key.dev);
  }

  /** A completion keeps the balance exactly when it takes away what was tracked. */
  lemma CompleteBalancedIff(s: Queues, reqs: map<Key, Request>, r: Request)
    requires Tracks(s, reqs) && Balanced(s, reqs) && (r.key in reqs ==> Legal(r))
    ensures Tracks(Complete(s, r), reqs - {r.key})
    ensures Balanced(Complete(s, r), reqs - {r.key}) <==> TakesItsOwn(reqs, r)
    ensures r.key !in reqs ==> Complete(s, r) == s
  {
    CompleteTracks(s, reqs, r);
    if r.key in reqs {
      var dev, t, after := r.key.dev, Complete(s, r), reqs - {r.key};
      CompleteOnDevice(s, reqs, r);
      forall d | d != dev
        ensures QueueOf(t, d) == SumsOn(after, d)
      {
        assert QueueOf(s, d) == SumsOn(reqs, d);
        SumsRemove(reqs, r.key, d);
      }
      if Balanced(t, after) {
        assert QueueOf(t, dev) == SumsOn(after, dev);
      }
    }
  }

  // ------------------------------------------------------- whole runs

  datatype Event = Issued(r: Request) | Completed(r: Request)

  function Run(h: seq<Event>): Queues {
    if h == [] then Queues(map[], map[])
    else
      var s := Run(h[..|h| - 1]);
      match h[|h| - 1]
      case Issued(r) => Issue(s, r)
      case Completed(r) => Complete(s, r)
  }

  /** Issued and not yet completed. */
  function Outstanding(h: seq<Event>): map<Key, Request> {
    if h == [] then map[]
    else
      var before := Outstanding(h[..|h| - 1]);
      match h[|h| - 1]
      case Issued(r) => before[r.key := r]
      case Completed(r) => before - {r.key}
  }

  /** The requests the table tracks. */
  function Tracked(h: seq<Event>): map<Key, Request> {
    if h == [] then map[]
    else
      var before := Tracked(h[..|h| - 1]);
      match h[|h| - 1]
      case Issued(r) => AfterIssue(before, r)
      case Completed(r) => before - {r.key}
  }

  predicate AllLegal(h: seq<Event>) {
    forall i :: 0 <= i < |h| ==> Legal(h[i].r)
  }

  predicate KeepsBalance(reqs: map<Key, Request>, e: Event) {
    match e
    case Issued(r) => !LosesTrack(reqs, r)
    case Completed(r) => TakesItsOwn(reqs, r)
  }

  /** Every event keeps the balance, by the requests tracked before it. */
  predicate AllKeepBalance(h: seq<Event>) {
    h == [] || (AllKeepBalance(h[..|h| - 1]) && KeepsBalance(Tracked(h[..|h| - 1]), h[|h| - 1]))
  }

  /** The lengths were right after every event so far. */
  ghost predicate AlwaysBalanced(h: seq<Event>) {
    Balanced(Run(h), Tracked(h)) && (h == [] || AlwaysBalanced(h[..|h| - 1]))
  }

  lemma StartBalanced()
    ensures Tracks(Run([]), map[]) && Balanced(Run([]), map[])
  {
    forall dev
      ensures SumsOn(map[], dev) == NO_QUEUE
    {
      assert SegmentsOn(map[], dev) == map[] && BlocksOn(map[], dev) == map[];
    }
  }

  /** Over every run: the lengths are the sums over the tracked requests all along if and
      only if no issue loses track of a request and every completion takes away what its
      request was tracked with. */
  lemma {:induction false} AlwaysBalancedIff(h: seq<Event>)
    requires AllLegal(h)
    ensures AlwaysBalanced(h) <==> AllKeepBalance(h)
    ensures AlwaysBalanced(h) ==> Tracks(Run(h), Tracked(h))
  {
    if h == [] {
      StartBalanced();
    } else {
      var before := h[..|h| - 1];
      AlwaysBalancedIff(before);
      if AlwaysBalanced(before) {
        assert Balanced(Run(before), Tracked(before));
        match h[|h| - 1] {
          case Issued(r) => IssueBalancedIff(Run(before), Tracked(before), r);
          case Completed(r) => CompleteBalancedIff(Run(before), Tracked(before), r);
        }
      }
    }
  }

  /** No two outstanding requests share device and sector, at most 1024 are outstanding,
      and a request completes with the blocks and segments it was issued with. */
  predicate Orderly(h: seq<Event>) {
    if h == [] then true
    else
      var before := Outstanding(h[..|h| - 1]);
      && Orderly(h[..|h| - 1])
      && match h[|h| - 1] {
           case Issued(r) => Legal(r) && r.key !in before && |before| < 1024
           case Completed(r) => TakesItsOwn(before, r)
         }
  }

  /** Over every orderly run the queue lengths are the sums over the outstanding
      requests; completions never seen issued change nothing. */
  lemma {:induction false} QueuesMatchOutstanding(h: seq<Event>)
    requires Orderly(h)
    ensures Tracks(Run(h), Outstanding(h)) && Balanced(Run(h), Outstanding(h))
    ensures h != [] && h[|h| - 1].Completed? && h[|h| - 1].r.key !in Outstanding(h[..|h| - 1]) ==>
              Run(h) == Run(h[..|h| - 1])
  {
    if h == [] {
      StartBalanced();
    } else {
      var before := h[..|h| - 1];
      QueuesMatchOutstanding(before);
      match h[|h| - 1] {
        case Issued(r) => IssueBalancedIff(Run(before), Outstanding(before), r);
        case Completed(r) => CompleteBalancedIff(Run(before), Outstanding(before), r);
      }
    }
  }

  /** Lengths are never negative, and zero once a device is drained. */
  lemma QueuesDrain(h: seq<Event>, dev: U32Val)
    requires Orderly(h)
    ensures QueueOf(Run(h), dev).segments >= 0 && QueueOf(Run(h), dev).blocks >= 0
    ensures (forall k :: k in Outstanding(h) ==> k.dev != dev) ==> QueueOf(Run(h), dev) == NO_QUEUE
  {
    var reqs := Outstanding(h);
    QueuesMatchOutstanding(h);
    SumsSmall(reqs, dev);
    assert QueueOf(Run(h), dev) == SumsOn(reqs, dev);
    if forall k :: k in reqs ==> k.dev != dev {
      assert SegmentsOn(reqs, dev) == map[] && BlocksOn(reqs, dev) == map[];
    }
  }
}
