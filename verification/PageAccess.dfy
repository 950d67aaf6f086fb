/** The page-access tracker: resolving addresses, arming page frames, reading them back. */
module PageAccess {
  import opened Wrappers
  import opened Sums
  import opened IdleBitmap
  import opened IdleMarking

  const PAGE_PRESENT := 0x8000_0000_0000_0000
  const PFN_LIMIT := 0x80_0000_0000_0000
  const KPF_COMPOUND_HEAD := 15
  const KPF_COMPOUND_TAIL := 16

  predicate FlagIsSet(flags: Word, bit: nat) {
    bit in flags
  }

  /** The frame number is the low 55 bits of a present entry. */
  function DecodePagemapEntry(entry: nat): Option<Pfn> {
    if entry / PAGE_PRESENT % 2 == 1 then Some(entry % PFN_LIMIT) else None
  }

  // ------------------------------------------------------- compound pages

  /** One 64-bit flag word for each page frame, as in /proc/kpageflags. */
  type PageFlags = seq<Word>

  predicate Head(flags: PageFlags, p: Pfn) {
    p < |flags| && FlagIsSet(flags[p], KPF_COMPOUND_HEAD)
  }

  predicate Tail(flags: PageFlags, p: Pfn) {
    p < |flags| && FlagIsSet(flags[p], KPF_COMPOUND_TAIL)
  }

  /** `p` is `h` or belongs to the unbroken run of tail pages right after it. */
  predicate InCompound(flags: PageFlags, h: Pfn, p: Pfn) {
    Head(flags, h) && h <= p && forall q :: h < q <= p ==> Tail(flags, q)
  }

  /** Every tail follows its head in an unbroken run, and no page is both. */
  ghost predicate WellFormedCompounds(flags: PageFlags) {
    && (forall p :: Tail(flags, p) ==> exists h :: InCompound(flags, h, p))
    && (forall p :: !(Head(flags, p) && Tail(flags, p)))
  }

  ghost predicate SamePage(flags: PageFlags, p: Pfn, q: Pfn) {
    p == q || exists h :: InCompound(flags, h, p) && InCompound(flags, h, q)
  }

  /** The head found by walking back over tails from `p`, or None. */
  function WalkBack(flags: PageFlags, p: nat): Option<Pfn>
    requires p <= |flags|
  {
    if p == 0 then None
    else if Head(flags, p - 1) then Some(p - 1)
    else if !Tail(flags, p - 1) then None
    else WalkBack(flags, p - 1)
  }

  function TrackingPfn(flags: PageFlags, p: Pfn): Pfn
    requires p < |flags|
  {
    if Tail(flags, p) && WalkBack(flags, p).Some? then WalkBack(flags, p).value else p
  }

  datatype Error = NegativeAddress | ProcessLookup | ShortRead

  method NormalizeTrackingPfn(flags: PageFlags, mappedPfn: Pfn) returns (r: Result<Pfn, Error>)
    ensures r == if mappedPfn < |flags| then Ok(TrackingPfn(flags, mappedPfn)) else Err(ShortRead)
  {
    if mappedPfn >= |flags| {
      return Err(ShortRead);
    }
    if !FlagIsSet(flags[mappedPfn], KPF_COMPOUND_TAIL) {
      return Ok(mappedPfn);
    }
    var candidate := mappedPfn;
    while candidate > 0
      invariant candidate <= mappedPfn
      invariant WalkBack(flags, mappedPfn) == WalkBack(flags, candidate)
    {
      candidate := candidate - 1;
      if FlagIsSet(flags[candidate], KPF_COMPOUND_HEAD) {
        return Ok(candidate);
      }
      if !FlagIsSet(flags[candidate], KPF_COMPOUND_TAIL) {
        break;
      }
    }
    return Ok(mappedPfn);
  }

  lemma {:induction false} WalkBackFindsHead(flags: PageFlags, h: Pfn, p: Pfn)
    requires p < |flags| && WellFormedCompounds(flags) && InCompound(flags, h, p) && h < p
    ensures WalkBack(flags, p) == Some(h)
  {
    assert Tail(flags, p);
    if p - 1 != h {
      assert Tail(flags, p - 1);
      WalkBackFindsHead(flags, h, p - 1);
    }
  }

  /** Every page of a compound page is tracked through its head. */
  lemma CompoundTracksHead(flags: PageFlags, h: Pfn, p: Pfn)
    requires p < |flags| && WellFormedCompounds(flags) && InCompound(flags, h, p)
    ensures TrackingPfn(flags, p) == h
  {
    if h < p {
      WalkBackFindsHead(flags, h, p);
    }
  }

  lemma TrackingIdempotent(flags: PageFlags, p: Pfn)
    requires p < |flags| && WellFormedCompounds(flags)
    ensures TrackingPfn(flags, p) < |flags|
    ensures TrackingPfn(flags, TrackingPfn(flags, p)) == TrackingPfn(flags, p)
  {
    if Tail(flags, p) {
      var h :| InCompound(flags, h, p);
      CompoundTracksHead(flags, h, p);
      CompoundTracksHead(flags, h, h);
    }
  }

  /** Two frames share a tracking frame exactly when they are the same page. */
  lemma TrackingSameIff(flags: PageFlags, p: Pfn, q: Pfn)
    requires p < |flags| && q < |flags| && WellFormedCompounds(flags)
    ensures TrackingPfn(flags, p) == TrackingPfn(flags, q) <==> SamePage(flags, p, q)
  {
    if SamePage(flags, p, q) && p != q {
      var h :| InCompound(flags, h, p) && InCompound(flags, h, q);
      CompoundTracksHead(flags, h, p);
      CompoundTracksHead(flags, h, q);
    }
    if TrackingPfn(flags, p) == TrackingPfn(flags, q) && p != q {
      var h := TrackingPfn(flags, p);
      if Tail(flags, p) {
        TailTracksItsHead(flags, p);
      }
      if Tail(flags, q) {
        TailTracksItsHead(flags, q);
      }
      assert InCompound(flags, h, h);
    }
  }

  lemma TailTracksItsHead(flags: PageFlags, p: Pfn)
    requires p < |flags| && WellFormedCompounds(flags) && Tail(flags, p)
    ensures InCompound(flags, TrackingPfn(flags, p), p) && TrackingPfn(flags, p) != p
  {
    var h :| InCompound(flags, h, p);
    CompoundTracksHead(flags, h, p);
  }

  /** The head that the page flags give a tail: the nearest page below it with bit 15, all
      pages between having bit 16 and not bit 15. */
  predicate HeadBelow(flags: PageFlags, h: Pfn, p: Pfn) {
    && h < p < |flags| && 15 in flags[h] && 16 in flags[p]
    && forall q :: h < q < p ==> 16 in flags[q] && 15 !in flags[q]
  }

  lemma {:induction false} WalkBackIs(flags: PageFlags, h: Pfn, p: nat)
    requires h < p <= |flags| && 15 in flags[h] && forall q :: h < q < p ==> 16 in flags[q] && 15 !in flags[q]
    ensures WalkBack(flags, p) == Some(h)
  {
    if p - 1 > h {
      WalkBackIs(flags, h, p - 1);
    }
  }

  lemma {:induction false} WalkBackStops(flags: PageFlags, p: nat)
    requires p <= |flags| && WalkBack(flags, p).Some?
    ensures var h := WalkBack(flags, p).value;
            h < p && 15 in flags[h] && forall q :: h < q < p ==> 16 in flags[q] && 15 !in flags[q]
  {
    if !Head(flags, p - 1) {
      WalkBackStops(flags, p - 1);
    }
  }

  /** Whatever the flags: a frame is tracked through the head below it, if it is a tail
      with one, and by itself otherwise. */
  lemma TrackingIsHeadBelow(flags: PageFlags, p: Pfn, h: Pfn)
    requires p < |flags|
    ensures HeadBelow(flags, h, p) ==> TrackingPfn(flags, p) == h
    ensures TrackingPfn(flags, p) != p ==> HeadBelow(flags, TrackingPfn(flags, p), p)
  {
    if HeadBelow(flags, h, p) {
      WalkBackIs(flags, h, p);
    }
    if TrackingPfn(flags, p) != p {
      WalkBackStops(flags, p);
    }
  }

  // ------------------------------------------------------- resolving addresses

  datatype Request = Request(pid: nat, virtualAddress: int)

  datatype ResolvedPage = ResolvedPage(
    pid: nat, virtualAddress: int, mappedPfn: Option<Pfn>, trackingPfn: Option<Pfn>,
    physicalPageAddr: Option<nat>, trackingPhysicalPageAddr: Option<nat>)

  /** What reading one pagemap entry of a process gives. */
  datatype EntryRead = Entry(entry: nat) | NoProcess | Truncated

  /** The proc files as one call sees them. */
  datatype Proc = Proc(pageSize: nat, pagemap: (nat, nat) -> EntryRead, flags: PageFlags)

  function MappedPfn(proc: Proc, pid: nat, va: int): Result<Option<Pfn>, Error>
    requires proc.pageSize > 0
  {
    if va < 0 then Err(NegativeAddress)
    else
      match proc.pagemap(pid, va / proc.pageSize)
      case NoProcess => Err(ProcessLookup)
      case Truncated => Err(ShortRead)
      case Entry(e) => Ok(DecodePagemapEntry(e))
  }

  /** The frame behind a request, whose flags must be readable too. */
  function Backing(proc: Proc, req: Request): (r: Result<Option<Pfn>, Error>)
    requires proc.pageSize > 0
    ensures r.Ok? && r.value.Some? ==> r.value.value < |proc.flags|
  {
    match MappedPfn(proc, req.pid, req.virtualAddress)
    case Err(e) => Err(e)
    case Ok(None) => Ok(None)
    case Ok(Some(pfn)) => if pfn < |proc.flags| then Ok(Some(pfn)) else Err(ShortRead)
  }

  /** The page a request resolves to, given the frame that backs it. */
  function PageOf(proc: Proc, req: Request, backing: Option<Pfn>): ResolvedPage
    requires backing.Some? ==> backing.value < |proc.flags|
  {
    match backing
    case None => ResolvedPage(req.pid, req.virtualAddress, None, None, None, None)
    case Some(p) =>
      var t := TrackingPfn(proc.flags, p);
      ResolvedPage(req.pid, req.virtualAddress, Some(p), Some(t), Some(p * proc.pageSize), Some(t * proc.pageSize))
  }

  /** `page` is what `req` resolves to. */
  predicate Resolves(proc: Proc, req: Request, page: ResolvedPage)
    requires proc.pageSize > 0
  {
    Backing(proc, req).Ok? && page == PageOf(proc, req, Backing(proc, req).value)
  }

  /** A pagemap entry: bit 63 says that the page is present, bits 0 to 54 hold its frame,
      and `other` stands for the bits between. */
  function PagemapEntry(present: bool, other: nat, pfn: nat): nat {
    (if present then 0x8000_0000_0000_0000 else 0) + other * 0x80_0000_0000_0000 + pfn
  }

  lemma EntryDecodes(present: bool, other: nat, pfn: nat)
    requires other < 256 && pfn < 0x80_0000_0000_0000
    ensures DecodePagemapEntry(PagemapEntry(present, other, pfn)) == if present then Some(pfn) else None
  {
  }

  /** What a request resolves to, from the entry of the page that holds its address: no
      frame for an absent page, a short read when the frame's flags end before it, and else
      the frame, its tracking frame and where both start. */
  lemma RequestResolves(proc: Proc, req: Request, n: nat, present: bool, other: nat, pfn: nat)
    requires proc.pageSize > 0 && n * proc.pageSize <= req.virtualAddress < n * proc.pageSize + proc.pageSize
    requires other < 256 && pfn < 0x80_0000_0000_0000
    requires proc.pagemap(req.pid, n) == Entry(PagemapEntry(present, other, pfn))
    ensures Backing(proc, req)
         == if !present then Ok(None) else if pfn < |proc.flags| then Ok(Some(pfn)) else Err(ShortRead)
    ensures Backing(proc, req).Ok? ==>
              var page := PageOf(proc, req, Backing(proc, req).value);
              && page.pid == req.pid && page.virtualAddress == req.virtualAddress
              && (!present ==>
                    && page.mappedPfn == None && page.trackingPfn == None
                    && page.physicalPageAddr == None && page.trackingPhysicalPageAddr == None)
              && (present ==>
                    && page.mappedPfn == Some(pfn) && page.physicalPageAddr == Some(pfn * proc.pageSize)
                    && page.trackingPfn == Some(TrackingPfn(proc.flags, pfn))
                    && page.trackingPhysicalPageAddr == Some(TrackingPfn(proc.flags, pfn) * proc.pageSize))
  {
    Quotient(req.virtualAddress, proc.pageSize, n);
    EntryDecodes(present, other, pfn);
  }

  /** What makes it raise. */
  lemma RequestRaises(proc: Proc, req: Request, n: nat)
    requires proc.pageSize > 0
    ensures req.virtualAddress < 0 ==> Backing(proc, req) == Err(NegativeAddress)
    ensures n * proc.pageSize <= req.virtualAddress < n * proc.pageSize + proc.pageSize ==>
              && (proc.pagemap(req.pid, n).NoProcess? ==> Backing(proc, req) == Err(ProcessLookup))
              && (proc.pagemap(req.pid, n).Truncated? ==> Backing(proc, req) == Err(ShortRead))
  {
    if n * proc.pageSize <= req.virtualAddress < n * proc.pageSize + proc.pageSize {
      Quotient(req.virtualAddress, proc.pageSize, n);
    }
  }

  method ReadMappedPfn(proc: Proc, pid: nat, va: int) returns (r: Result<Option<Pfn>, Error>)
    requires proc.pageSize > 0
    ensures r == MappedPfn(proc, pid, va)
  {
    if va < 0 {
      return Err(NegativeAddress);
    }
    match proc.pagemap(pid, va / proc.pageSize)
    case NoProcess => return Err(ProcessLookup);
    case Truncated => return Err(ShortRead);
    case Entry(e) => return Ok(DecodePagemapEntry(e));
  }

  method ResolveRequest(proc: Proc, req: Request) returns (r: Result<ResolvedPage, Error>)
    requires proc.pageSize > 0
    ensures r.Ok? <==> Backing(proc, req).Ok?
    ensures r.Ok? ==> Resolves(proc, req, r.value)
    ensures r.Err? ==> r.error == Backing(proc, req).error
  {
    var mapped := ReadMappedPfn(proc, req.pid, req.virtualAddress);
    match mapped
    case Err(e) =>
      return Err(e);
    case Ok(None) =>
      return Ok(ResolvedPage(req.pid, req.virtualAddress, None, None, None, None));
    case Ok(Some(pfn)) =>
      var tracking := NormalizeTrackingPfn(proc.flags, pfn);
      if tracking.Err? {
        return Err(tracking.error);
      }
      return Ok(ResolvedPage(req.pid, req.virtualAddress, Some(pfn), Some(tracking.value),
                             Some(pfn * proc.pageSize), Some(tracking.value * proc.pageSize)));
  }

  /** All requests resolve, in order, or the first failure is raised. */
  method ResolveMany(proc: Proc, requests: seq<Request>) returns (r: Result<seq<ResolvedPage>, Error>)
    requires proc.pageSize > 0
    ensures r.Ok? <==> forall i :: 0 <= i < |requests| ==> Backing(proc, requests[i]).Ok?
    ensures r.Ok? ==> |r.value| == |requests|
                      && forall i :: 0 <= i < |requests| ==> Resolves(proc, requests[i], r.value[i])
    ensures r.Err? ==> exists i :: 0 <= i < |requests| && Backing(proc, requests[i]) == Err(r.error)
                                   && forall j :: 0 <= j < i ==> Backing(proc, requests[j]).Ok?
  {
    var pages: seq<ResolvedPage> := [];
    for i := 0 to |requests|
      invariant |pages| == i
      invariant forall j :: 0 <= j < i ==> Resolves(proc, requests[j], pages[j])
    {
      var page := ResolveRequest(proc, requests[i]);
      if page.Err? {
        return Err(page.error);
      }
      pages := pages + [page.value];
    }
    return Ok(pages);
  }

  // ------------------------------------------------------- arming and reading

  datatype AccessResult = AccessResult(
    pid: nat, virtualAddress: int, mappedPfn: Option<Pfn>, trackingPfn: Option<Pfn>,
    physicalPageAddr: Option<nat>, trackingPhysicalPageAddr: Option<nat>,
    pageIdle: Option<bool>, accessBit: Option<bool>, accessBitValid: bool)

  /** The result carries the page's own data. */
  predicate Describes(r: AccessResult, page: ResolvedPage) {
    && r.pid == page.pid && r.virtualAddress == page.virtualAddress
    && r.mappedPfn == page.mappedPfn && r.trackingPfn == page.trackingPfn
    && r.physicalPageAddr == page.physicalPageAddr
    && r.trackingPhysicalPageAddr == page.trackingPhysicalPageAddr
  }

  function PfnsOf(pages: seq<ResolvedPage>): set<Pfn> {
    set page | page in pages && page.trackingPfn.Some? :: page.trackingPfn.value
  }

  lemma PfnsAreTracked(pages: seq<ResolvedPage>, p: Pfn)
    ensures p in PfnsOf(pages) <==> exists i :: 0 <= i < |pages| && pages[i].trackingPfn == Some(p)
  {
    if i :| 0 <= i < |pages| && pages[i].trackingPfn == Some(p) {
      assert pages[i] in pages;
    }
  }

  function ResultFor(page: ResolvedPage, idleByPfn: map<Pfn, bool>): AccessResult {
    var idle := if page.trackingPfn.Some? && page.trackingPfn.value in idleByPfn
                then Some(idleByPfn[page.trackingPfn.value]) else None;
    AccessResult(page.pid, page.virtualAddress, page.mappedPfn, page.trackingPfn,
                 page.physicalPageAddr, page.trackingPhysicalPageAddr,
                 idle, if idle.Some? then Some(!idle.value) else None, idle.Some?)
  }

  /** The tracker's state: the bitmap and the frames armed so far. */
  datatype Tracking = Tracking(bitmap: Bitmap, armed: set<Pfn>)

  function IdleOf(b: Bitmap, ps: set<Pfn>): map<Pfn, bool> {
    map p | p in ps :: Idle(b, p)
  }

  function IdleByPfn(s: Tracking, pages: seq<ResolvedPage>): map<Pfn, bool> {
    IdleOf(s.bitmap, PfnsOf(pages) * s.armed)
  }

  function ReadPages(s: Tracking, pages: seq<ResolvedPage>): (r: seq<AccessResult>)
    ensures |r| == |pages|
  {
    seq(|pages|, i requires 0 <= i < |pages| => ResultFor(pages[i], IdleByPfn(s, pages)))
  }

  function BitsOf(ps: set<Pfn>, wi: nat): Word {
    set p | p in ps && p / WORD_BITS == wi :: p % WORD_BITS
  }

  /** `b` with the bits of `ps` set, as far as they exist. */
  function MarkSet(b: Bitmap, ps: set<Pfn>): Bitmap {
    seq(|b|, wi requires 0 <= wi < |b| => b[wi] + BitsOf(ps, wi))
  }

  /** `b` with the bits of `ps` set in the words below `end` only. */
  function MarkBelow(b: Bitmap, ps: set<Pfn>, end: nat): Bitmap {
    seq(|b|, wi requires 0 <= wi < |b| => if wi < end then b[wi] + BitsOf(ps, wi) else b[wi])
  }

  function WordsOfSet(ps: set<Pfn>): set<nat> {
    set p | p in ps :: p / WORD_BITS
  }

  /** The writes of `words`, in ascending order, stopped at the word `failed`: those before
      it are written and it and the later ones are not. */
  predicate StoppedAt(words: set<nat>, wrote: seq<nat>, failed: nat) {
    failed in words && forall wi :: wi in words ==> (wi in wrote <==> wi < failed)
  }

  predicate AllInRange(b: Bitmap, ps: set<Pfn>) {
    forall p :: p in ps ==> InRange(b, p)
  }

  /** A frame past the end of the bitmap stops the call before the frames count as
      armed. */
  function ArmPages(s: Tracking, pages: seq<ResolvedPage>): Tracking {
    Tracking(MarkSet(s.bitmap, PfnsOf(pages)),
             if AllInRange(s.bitmap, PfnsOf(pages)) then s.armed + PfnsOf(pages) else s.armed)
  }

  /** The write of the word `failed` stops the call: the words before it are written, and
      the frames do not count as armed. */
  function PartArmed(s: Tracking, pages: seq<ResolvedPage>, failed: nat): Tracking {
    s.(bitmap := MarkBelow(s.bitmap, PfnsOf(pages), failed))
  }

  lemma MarkBelowSetsWritten(b: Bitmap, ps: set<Pfn>, end: nat, p: Pfn)
    requires InRange(b, p)
    ensures Idle(MarkBelow(b, ps, end), p) <==> Idle(b, p) || (p in ps && p / WORD_BITS < end)
  {
    MarkSetSetsListed(b, ps, p);
  }

  lemma {:induction false} MarkSetSetsListed(b: Bitmap, ps: set<Pfn>, p: Pfn)
    requires InRange(b, p)
    ensures Idle(MarkSet(b, ps), p) <==> Idle(b, p) || p in ps
  {
    if p % WORD_BITS in BitsOf(ps, p / WORD_BITS) {
      var q :| q in ps && q / WORD_BITS == p / WORD_BITS && q % WORD_BITS == p % WORD_BITS;
      assert q == p;
    }
  }

  lemma MarkSetNothing(b: Bitmap)
    ensures MarkSet(b, {}) == b
  {
    assert forall wi :: 0 <= wi < |b| ==> MarkSet(b, {})[wi] == b[wi] + BitsOf({}, wi) == b[wi];
  }

  lemma MasksAreBits(pfns: seq<Pfn>, wi: nat)
    ensures MaskOf(pfns, wi) == BitsOf(SetOf(pfns), wi)
    ensures wi !in WordsOf(pfns) ==> MaskOf(pfns, wi) == {}
  {
    forall k
      ensures k in MaskOf(pfns, wi) <==> k in BitsOf(SetOf(pfns), wi)
    {
      if k in BitsOf(SetOf(pfns), wi) {
        var p :| p in SetOf(pfns) && p / WORD_BITS == wi && p % WORD_BITS == k;
        assert p in pfns;
      }
      if k in MaskOf(pfns, wi) {
        var p :| p in pfns && p / WORD_BITS == wi && p % WORD_BITS == k;
        assert p in SetOf(pfns);
      }
    }
  }

  /** Marking depends on the set of the frames listed. */
  lemma MarkAllIsMarkSet(b: Bitmap, pfns: seq<Pfn>)
    ensures MarkAll(b, pfns) == MarkSet(b, SetOf(pfns))
  {
    forall wi
      ensures MaskOf(pfns, wi) == BitsOf(SetOf(pfns), wi)
      ensures wi !in WordsOf(pfns) ==> MaskOf(pfns, wi) == {}
    {
      MasksAreBits(pfns, wi);
    }
    assert forall wi :: 0 <= wi < |b| ==> MarkAll(b, pfns)[wi] == MarkSet(b, SetOf(pfns))[wi];
  }

  /** Also where the writes stopped at a word. */
  lemma StoppedIsMarkBelow(b: Bitmap, pfns: seq<Pfn>, wrote: seq<nat>, failed: nat)
    requires StoppedAt(WordsOf(pfns), wrote, failed) && forall wi :: wi in wrote ==> wi in WordsOf(pfns)
    ensures MarkWords(b, pfns, SetOf(wrote)) == MarkBelow(b, SetOf(pfns), failed)
    ensures WordsOf(pfns) == WordsOfSet(SetOf(pfns))
  {
    var x, y := MarkWords(b, pfns, SetOf(wrote)), MarkBelow(b, SetOf(pfns), failed);
    forall wi | 0 <= wi < |b|
      ensures x[wi] == y[wi]
    {
      MasksAreBits(pfns, wi);
    }
    forall p | p in pfns
      ensures p in SetOf(pfns)
    {
    }
  }

  /** The word that holds the frame's bit, and the mask that picks it out of that word. */
  function IdleBitmapOffsetAndMask(p: Pfn): (r: (nat, Word))
    ensures r.0 % WORD_BYTES == 0 && r.0 / WORD_BYTES == p / WORD_BITS
    ensures forall q: Pfn :: q / WORD_BITS == r.0 / WORD_BYTES ==> (q % WORD_BITS in r.1 <==> q == p)
  {
    (p / WORD_BITS * WORD_BYTES, {p % WORD_BITS})
  }

  method GroupMasks(pfns: seq<Pfn>) returns (grouped: map<nat, Word>)
    ensures Masks(grouped, pfns)
  {
    grouped := map[];
    for n := 0 to |pfns|
      invariant Masks(grouped, pfns[..n])
    {
      AddMaskKeepsMasks(grouped, pfns[..n], pfns[n]);
      assert pfns[..n + 1] == pfns[..n] + [pfns[n]];
      var (offset, mask) := IdleBitmapOffsetAndMask(pfns[n]);
      var wi := offset / WORD_BYTES;
      grouped := grouped[wi := (if wi in grouped then grouped[wi] else {}) + mask];
    }
    assert pfns[..|pfns|] == pfns;
  }

  /** One word is written whole or not at all. */
  method WriteWord(idle: IdleFile, wi: nat, mask: Word) returns (ok: bool)
    modifies idle
    ensures ok <==> idle.outcome(old(idle.calls)) != Failed && wi < |old(idle.words)|
    ensures idle.calls == old(idle.calls) + 1
    ensures ok ==> idle.words == OrRun(old(idle.words), wi, [mask]) && idle.written == old(idle.written) + [wi]
    ensures !ok ==> idle.words == old(idle.words) && idle.written == old(idle.written)
  {
    ghost var b, n := idle.words, WordsWritten(idle.outcome(idle.calls), 1);
    ok := idle.Pwrite([mask], wi * WORD_BYTES);
    if ok {
      assert n == 1 && [mask][..1] == [mask];
      assert RunIndices(b, wi, 1) == [wi];
    }
  }

  method MarkWord(idle: IdleFile, words: seq<nat>, i: nat, mask: Word,
                  ghost pfns: seq<Pfn>, ghost b: Bitmap, ghost wrote: seq<nat>, ghost quiet: bool)
    returns (ok: bool)
    requires Ascending(words) && i < |words| && words[i] in WordsOf(pfns) && mask == MaskOf(pfns, words[i])
    requires Marked(b, idle.words, pfns, words, i, wrote, quiet) && (quiet ==> idle.NoFaults())
    modifies idle
    ensures quiet ==> idle.NoFaults() && (ok <==> words[i] < |b|)
    ensures ok ==> words[i] < |b| && Marked(b, idle.words, pfns, words, i + 1, wrote + [words[i]], quiet)
                   && idle.written == old(idle.written) + [words[i]]
    ensures !ok ==> idle.words == old(idle.words) && idle.written == old(idle.written)
  {
    ghost var mid := idle.words;
    ok := WriteWord(idle, words[i], mask);
    if ok {
      OneWordMarked(b, mid, pfns, words, i, wrote, quiet);
    }
  }

  lemma OneWordMarked(b: Bitmap, mid: Bitmap, pfns: seq<Pfn>, words: seq<nat>, i: nat, wrote: seq<nat>, quiet: bool)
    requires Ascending(words) && i < |words| && words[i] in WordsOf(pfns) && words[i] < |mid|
    requires Marked(b, mid, pfns, words, i, wrote, quiet)
    ensures Marked(b, OrRun(mid, words[i], [MaskOf(pfns, words[i])]), pfns, words, i + 1, wrote + [words[i]], quiet)
  {
    var run, mask := words[i..i + 1], MaskOf(pfns, words[i]);
    RunWrites(mid, pfns, run, [mask]);
    assert RunIndices(mid, words[i], 1) == [words[i]] == run;
    MarkedStep(b, mid, OrRun(mid, words[i], [mask]), pfns, words, i, i, wrote, run, quiet);
  }

  /** The words in order, until one write fails: exactly the first `done` are written. */
  method MarkInOrder(idle: IdleFile, words: seq<nat>, grouped: map<nat, Word>, ghost pfns: seq<Pfn>)
    returns (ok: bool, ghost wrote: seq<nat>, ghost done: nat)
    requires Ascending(words) && Masks(grouped, pfns) && forall wi :: wi in words <==> wi in grouped
    modifies idle
    ensures idle.written == old(idle.written) + wrote
    ensures Marked(old(idle.words), idle.words, pfns, words, done, wrote, old(idle.NoFaults()))
    ensures done <= |words| && wrote == words[..done] && (ok <==> done == |words|)
    ensures ok ==> forall wi :: wi in words ==> wi < |old(idle.words)|
    ensures old(idle.NoFaults()) ==> idle.NoFaults() && (!ok ==> words[done] >= |old(idle.words)|)
  {
    ghost var b, w0, quiet := idle.words, idle.written, idle.NoFaults();
    wrote := [];
    WroteNothing(b, pfns);
    assert w0 + wrote == w0;
    for i := 0 to |words|
      invariant Marked(b, idle.words, pfns, words, i, wrote, quiet) && idle.written == w0 + wrote
      invariant wrote == words[..i] && forall wi :: wi in wrote ==> wi < |b|
      invariant quiet ==> idle.NoFaults()
    {
      assert words[i] in grouped;
      ok := MarkWord(idle, words, i, grouped[words[i]], pfns, b, wrote, quiet);
      if !ok {
        done := i;
        return;
      }
      wrote := wrote + [words[i]];
      assert words[..i + 1] == words[..i] + [words[i]];
    }
    ok, done := true, |words|;
    assert words[..|words|] == words;
  }

  /** One write per word, in order.  A failed write raises: the words before it are
      written, it and the later ones are not. */
  method MarkIdlePfns(idle: IdleFile, pfns: seq<Pfn>) returns (ok: bool, ghost wrote: seq<nat>, ghost failed: nat)
    modifies idle
    ensures idle.written == old(idle.written) + wrote
    ensures WroteOnly(old(idle.words), idle.words, pfns, wrote)
    ensures ok ==> AllInRange(idle.words, SetOf(pfns)) && idle.words == MarkAll(old(idle.words), pfns)
    ensures !ok ==> StoppedAt(WordsOf(pfns), wrote, failed)
    ensures old(idle.NoFaults()) ==>
              && idle.NoFaults() && WroteAll(old(idle.words), pfns, wrote)
              && idle.words == MarkAll(old(idle.words), pfns)
              && (ok <==> AllInRange(idle.words, SetOf(pfns)))
  {
    var grouped := GroupMasks(pfns);
    var words := Sorted(grouped.Keys);
    ghost var b, quiet := idle.words, idle.NoFaults();
    ghost var done;
    ok, wrote, done := MarkInOrder(idle, words, grouped, pfns);
    failed := 0;
    if ok {
      InRangeWords(b, pfns, words);
      WroteAllMarksAll(b, idle.words, pfns, wrote);
    } else {
      failed := words[done];
      FirstAreBelow(words, done);
      if quiet {
        StoppedPastEnd(b, idle.words, pfns, words, done, wrote);
      }
    }
  }

  lemma FirstAreBelow(words: seq<nat>, done: nat)
    requires Ascending(words) && done < |words|
    ensures words[done] in words
    ensures forall wi :: wi in words ==> (wi in words[..done] <==> wi < words[done])
  {
    forall wi | wi in words
      ensures wi in words[..done] <==> wi < words[done]
    {
      var k :| 0 <= k < |words| && words[k] == wi;
      if k < done {
        assert words[..done][k] == wi;
      }
    }
  }

  lemma InRangeWords(b: Bitmap, pfns: seq<Pfn>, words: seq<nat>)
    requires forall wi :: wi in words <==> wi in WordsOf(pfns)
    ensures AllInRange(b, SetOf(pfns)) <==> forall wi :: wi in words ==> wi < |b|
  {
    forall wi | wi in words
      ensures exists p :: p in SetOf(pfns) && p / WORD_BITS == wi
    {
      var p :| p in pfns && p / WORD_BITS == wi;
      assert p in SetOf(pfns);
    }
    forall p | p in SetOf(pfns)
      ensures p / WORD_BITS in words
    {
      assert p in pfns;
    }
  }

  /** When only the end of the bitmap stops the writes, all words that exist are done. */
  lemma StoppedPastEnd(b: Bitmap, now: Bitmap, pfns: seq<Pfn>, words: seq<nat>, i: nat, wrote: seq<nat>)
    requires Ascending(words) && i < |words| && |b| <= words[i]
    requires forall wi :: wi in words <==> wi in WordsOf(pfns)
    requires Marked(b, now, pfns, words, i, wrote, true)
    ensures WroteAll(b, pfns, wrote) && now == MarkAll(b, pfns) && !AllInRange(now, SetOf(pfns))
  {
    InRangeWords(b, pfns, words);
    assert words[i] in words;
    forall wi | wi in words && wi < |b|
      ensures wi in words[..i]
    {
      var k :| 0 <= k < |words| && words[k] == wi;
      assert k < i;
    }
    WroteAllMarksAll(b, now, pfns, wrote);
  }

  // ------------------------------------------------------- the tracker

  class PageAccessTracker {
    const idle: IdleFile
    var armedPfns: set<Pfn>

    ghost function State(): Tracking
      reads this, idle
    {
      Tracking(idle.words, armedPfns)
    }

    constructor (idle: IdleFile)
      ensures this.idle == idle && armedPfns == {}
    {
      this.idle, armedPfns := idle, {};
    }

    /** Raises a short read when an armed frame is not in the bitmap, or on a fault. */
    method ReadMany(pages: seq<ResolvedPage>) returns (r: Result<seq<AccessResult>, Error>)
      modifies idle`calls
      ensures r.Ok? ==> r.value == ReadPages(State(), pages)
      ensures r.Ok? ==> idle.calls == old(idle.calls) + |PfnsOf(pages) * armedPfns|
      ensures old(idle.NoFaults()) ==> idle.NoFaults()
      ensures old(idle.NoFaults()) && AllInRange(idle.words, PfnsOf(pages) * armedPfns) ==> r.Ok?
    {
      var known := Sorted(PfnsOf(pages) * armedPfns);
      assert SetOf(known) == PfnsOf(pages) * armedPfns;
      var read := ReadKnown(known);
      if read.Err? {
        return Err(read.error);
      }
      var results := ResultsFor(pages, read.value);
      return Ok(results);
    }

    /** One read of the bitmap for each frame, until one fails. */
    method ReadKnown(known: seq<Pfn>) returns (r: Result<map<Pfn, bool>, Error>)
      modifies idle`calls
      ensures r.Ok? ==> r.value == IdleOf(idle.words, SetOf(known))
      ensures r.Ok? ==> idle.calls == old(idle.calls) + |known|
      ensures old(idle.NoFaults()) ==> idle.NoFaults()
      ensures old(idle.NoFaults()) && AllInRange(idle.words, SetOf(known)) ==> r.Ok?
    {
      var idleByPfn: map<Pfn, bool> := map[];
      var i := 0;
      while i < |known|
        invariant i <= |known| && idle.calls == old(idle.calls) + i
        invariant forall p :: p in idleByPfn <==> p in known[..i]
        invariant forall p :: p in idleByPfn ==> idleByPfn[p] == Idle(idle.words, p)
        invariant old(idle.NoFaults()) ==> idle.NoFaults()
      {
        assert known[i] in known;
        var isIdle := ReadPageIdle(known[i]);
        if isIdle.Err? {
          return Err(isIdle.error);
        }
        assert known[..i + 1] == known[..i] + [known[i]];
        idleByPfn := idleByPfn[known[i] := isIdle.value];
        i := i + 1;
      }
      assert known[..|known|] == known;
      return Ok(idleByPfn);
    }

    method ResultsFor(pages: seq<ResolvedPage>, idleByPfn: map<Pfn, bool>) returns (r: seq<AccessResult>)
      ensures r == seq(|pages|, i requires 0 <= i < |pages| => ResultFor(pages[i], idleByPfn))
    {
      r := [];
      for i := 0 to |pages|
        invariant r == seq(i, k requires 0 <= k < i && i <= |pages| => ResultFor(pages[k], idleByPfn))
      {
        var result := ResultFromResolved(pages[i], idleByPfn);
        r := r + [result];
      }
    }

    method ResultFromResolved(page: ResolvedPage, idleByPfn: map<Pfn, bool>) returns (r: AccessResult)
      ensures r == ResultFor(page, idleByPfn)
    {
      if page.trackingPfn.None? {
        return AccessResult(page.pid, page.virtualAddress, page.mappedPfn, page.trackingPfn,
                            page.physicalPageAddr, page.trackingPhysicalPageAddr, None, None, false);
      }
      var pfn := page.trackingPfn.value;
      var pageIdle := if pfn in idleByPfn then Some(idleByPfn[pfn]) else None;
      return AccessResult(page.pid, page.virtualAddress, page.mappedPfn, page.trackingPfn,
                          page.physicalPageAddr, page.trackingPhysicalPageAddr, pageIdle,
                          if pageIdle.None? then None else Some(!pageIdle.value), pfn in idleByPfn);
    }

    method ReadPageIdle(pfn: Pfn) returns (r: Result<bool, Error>)
      modifies idle`calls
      ensures idle.calls == old(idle.calls) + 1
      ensures r.Ok? ==> r.value == Idle(idle.words, pfn)
      ensures old(idle.NoFaults()) ==> idle.NoFaults() && (r.Ok? <==> InRange(idle.words, pfn))
    {
      var (offset, mask) := IdleBitmapOffsetAndMask(pfn);
      var ok, raw := idle.Pread(WORD_BYTES, offset);
      if !ok || |raw| != 1 {
        return Err(ShortRead);
      }
      assert raw[0] * mask == if pfn % WORD_BITS in raw[0] then {pfn % WORD_BITS} else {};
      return Ok(raw[0] * mask != {});
    }

    /** A call that raises has written exactly the words before the failed one. */
    method ArmMany(pages: seq<ResolvedPage>) returns (ok: bool, ghost wrote: seq<nat>, ghost failed: nat)
      modifies this, idle
      ensures idle.written == old(idle.written) + wrote && Ascending(wrote)
      ensures ok ==> State() == ArmPages(old(State()), pages) && AllInRange(idle.words, PfnsOf(pages))
      ensures !ok ==> StoppedAt(WordsOfSet(PfnsOf(pages)), wrote, failed)
                      && State() == PartArmed(old(State()), pages, failed)
      ensures old(idle.NoFaults()) ==> idle.NoFaults() && State() == ArmPages(old(State()), pages)
      ensures old(idle.NoFaults()) && AllInRange(old(idle.words), PfnsOf(pages)) ==> ok
    {
      var trackingPfns := Sorted(PfnsOf(pages));
      assert SetOf(trackingPfns) == PfnsOf(pages);
      MarkAllIsMarkSet(idle.words, trackingPfns);
      ok, wrote, failed := true, [], 0;
      if trackingPfns != [] {
        ghost var b := idle.words;
        ok, wrote, failed := MarkIdlePfns(idle, trackingPfns);
        if ok {
          armedPfns := armedPfns + SetOf(trackingPfns);
        } else {
          StoppedIsMarkBelow(b, trackingPfns, wrote, failed);
        }
      } else {
        MarkSetNothing(idle.words);
        assert idle.written + [] == idle.written;
      }
    }

    /** The previous interval's result for each request, and then a fresh arming. */
    method SampleMany(proc: Proc, requests: seq<Request>)
      returns (r: Result<seq<AccessResult>, Error>, ok: bool, ghost pages: seq<ResolvedPage>, ghost failed: nat)
      requires proc.pageSize > 0
      modifies this, idle
      ensures r.Ok? ==>
                && |pages| == |requests|
                && (forall i :: 0 <= i < |requests| ==> Resolves(proc, requests[i], pages[i]))
                && r.value == ReadPages(old(State()), pages)
                && (ok ==> State() == ArmPages(old(State()), pages))
                && (!ok ==> failed in WordsOfSet(PfnsOf(pages)) && State() == PartArmed(old(State()), pages, failed))
      ensures r.Err? ==> State() == old(State())
    {
      ok, pages, failed := false, [], 0;
      var resolved := ResolveMany(proc, requests);
      if resolved.Err? {
        return Err(resolved.error), false, [], 0;
      }
      pages := resolved.value;
      r := ReadMany(resolved.value);
      if r.Ok? {
        ghost var wrote;
        ok, wrote, failed := ArmMany(resolved.value);
      }
    }
  }

  // ------------------------------------------------------- whole runs

  /** What happens around the tracker: pages are accessed, batches read or armed.
      `Sample` is a read followed by an arming of the same batch; `Faulted` an arming that
      the failing write of the word `failed` stopped. */
  datatype Event =
    | Access(pfn: Pfn)
    | Read(pages: seq<ResolvedPage>)
    | Arm(pages: seq<ResolvedPage>)
    | Sample(pages: seq<ResolvedPage>)
    | Faulted(pages: seq<ResolvedPage>, failed: nat)

  function Step(s: Tracking, e: Event): Tracking {
    match e
    case Access(p) => s.(bitmap := Touch(s.bitmap, p))
    case Read(_) => s
    case Arm(pages) => ArmPages(s, pages)
    case Sample(pages) => ArmPages(s, pages)
    case Faulted(pages, failed) => PartArmed(s, pages, failed)
  }

  /** What a history of calls can hold: a write fails at a word of its own batch.  The
      lemmas below need not require it. */
  predicate Possible(h: seq<Event>) {
    forall i :: 0 <= i < |h| && h[i].Faulted? ==> h[i].failed in WordsOfSet(PfnsOf(h[i].pages))
  }

  /** From any bitmap, with nothing armed. */
  function Run(start: Bitmap, h: seq<Event>): (s: Tracking)
    ensures |s.bitmap| == |start|
  {
    if h == [] then Tracking(start, {}) else Step(Run(start, h[..|h| - 1]), h[|h| - 1])
  }

  /** The call sets the frame's bit. */
  predicate Marks(e: Event, p: Pfn) {
    match e
    case Arm(pages) => p in PfnsOf(pages)
    case Sample(pages) => p in PfnsOf(pages)
    case Faulted(pages, failed) => p in PfnsOf(pages) && p / WORD_BITS < failed
    case _ => false
  }

  /** The call arms the frame: it sets its bit and does not raise. */
  predicate Arms(start: Bitmap, e: Event, p: Pfn) {
    (e.Arm? || e.Sample?) && p in PfnsOf(e.pages) && AllInRange(start, PfnsOf(e.pages))
  }

  /** Some earlier call armed `p`. */
  predicate ArmedEarlier(start: Bitmap, h: seq<Event>, p: Pfn) {
    exists i :: 0 <= i < |h| && Arms(start, h[i], p)
  }

  /** `p` was accessed after the latest call that set its bit. */
  predicate AccessedSince(h: seq<Event>, p: Pfn) {
    if h == [] then false
    else
      var e := h[|h| - 1];
      if Marks(e, p) then false
      else e == Access(p) || AccessedSince(h[..|h| - 1], p)
  }

  lemma {:induction false} RunTracksHistory(start: Bitmap, h: seq<Event>, p: Pfn)
    ensures p in Run(start, h).armed <==> ArmedEarlier(start, h, p)
    ensures p in Run(start, h).armed ==>
              InRange(start, p) && (Idle(Run(start, h).bitmap, p) <==> !AccessedSince(h, p))
  {
    if h == [] {
    } else {
      var before, e := h[..|h| - 1], h[|h| - 1];
      RunTracksHistory(start, before, p);
      assert ArmedEarlier(start, h, p) <==> ArmedEarlier(start, before, p) || Arms(start, e, p);
      if InRange(start, p) {
        StepMarks(Run(start, before), e, p);
      }
    }
  }

  /** A step sets the bits it marks and clears the one it accesses. */
  lemma StepMarks(s: Tracking, e: Event, p: Pfn)
    requires InRange(s.bitmap, p)
    ensures Idle(Step(s, e).bitmap, p) <==> Marks(e, p) || (Idle(s.bitmap, p) && e != Access(p))
  {
    match e {
      case Access(q) => TouchClearsOne(s.bitmap, q, p);
      case Read(_) =>
      case Arm(pages) => MarkSetSetsListed(s.bitmap, PfnsOf(pages), p);
      case Sample(pages) => MarkSetSetsListed(s.bitmap, PfnsOf(pages), p);
      case Faulted(pages, failed) => MarkBelowSetsWritten(s.bitmap, PfnsOf(pages), failed, p);
    }
  }

  /** A result is valid exactly when its tracking frame was armed by an earlier call, and
      then says whether the frame was accessed since its bit was last set. */
  lemma {:induction false} ResultsTellAccess(start: Bitmap, h: seq<Event>, pages: seq<ResolvedPage>, i: nat)
    requires i < |pages|
    ensures var r := ReadPages(Run(start, h), pages)[i];
            && Describes(r, pages[i])
            && (r.accessBitValid <==>
                pages[i].trackingPfn.Some? && ArmedEarlier(start, h, pages[i].trackingPfn.value))
            && (r.accessBitValid ==>
                  && r.accessBit == Some(AccessedSince(h, pages[i].trackingPfn.value))
                  && r.pageIdle == Some(!r.accessBit.value))
            && (!r.accessBitValid ==> r.accessBit == None && r.pageIdle == None)
  {
    if pages[i].trackingPfn.Some? {
      var p := pages[i].trackingPfn.value;
      assert pages[i] in pages;
      assert p in PfnsOf(pages);
      RunTracksHistory(start, h, p);
    }
  }

  /** `p` was accessed after the latest call that armed it. */
  predicate AccessedSinceArmed(start: Bitmap, h: seq<Event>, p: Pfn) {
    if h == [] then false
    else
      var e := h[|h| - 1];
      if Arms(start, e, p) then false
      else e == Access(p) || AccessedSinceArmed(start, h[..|h| - 1], p)
  }

  /** An access since the latest arming was covered up: a call that then raised set the
      bit again, and no access came after it. */
  predicate Covered(start: Bitmap, h: seq<Event>, p: Pfn) {
    if h == [] then false
    else
      var before, e := h[..|h| - 1], h[|h| - 1];
      if Arms(start, e, p) || e == Access(p) then false
      else if Marks(e, p) then AccessedSinceArmed(start, before, p)
      else Covered(start, before, p)
  }

  lemma {:induction false} CoveredIff(start: Bitmap, h: seq<Event>, p: Pfn)
    ensures Covered(start, h, p) <==> AccessedSinceArmed(start, h, p) && !AccessedSince(h, p)
    ensures AccessedSince(h, p) ==> AccessedSinceArmed(start, h, p)
  {
    if h == [] {
    } else {
      CoveredIff(start, h[..|h| - 1], p);
    }
  }

  /** A valid access bit says whether the frame was accessed since its latest arming if
      and only if no such access was covered up by a call that raised. */
  lemma TellsSinceArmedIff(start: Bitmap, h: seq<Event>, pages: seq<ResolvedPage>, i: nat)
    requires i < |pages| && ReadPages(Run(start, h), pages)[i].accessBitValid
    ensures pages[i].trackingPfn.Some?
    ensures var p := pages[i].trackingPfn.value;
            ReadPages(Run(start, h), pages)[i].accessBit == Some(AccessedSinceArmed(start, h, p))
            <==> !Covered(start, h, p)
  {
    ResultsTellAccess(start, h, pages, i);
    CoveredIff(start, h, pages[i].trackingPfn.value);
  }

  function PageOfFrame(p: Pfn): ResolvedPage {
    ResolvedPage(1, 0, Some(p), Some(p), Some(0), Some(0))
  }

  /** Frame 5 is armed and accessed; then an arming of frames 5 and 70 writes word 0 and
      fails at word 1. */
  const COVERED := [Arm([PageOfFrame(5)]), Access(5), Faulted([PageOfFrame(5), PageOfFrame(70)], 1)]

  lemma CoveredPages()
    ensures PfnsOf([PageOfFrame(5)]) == {5} && PfnsOf([PageOfFrame(5), PageOfFrame(70)]) == {5, 70}
  {
    var both := [PageOfFrame(5), PageOfFrame(70)];
    assert both[0] in both && both[1] in both;
  }

  lemma AccessCovered()
    ensures Possible(COVERED) && Covered([{}, {}], COVERED, 5)
  {
    var h := COVERED;
    CoveredPages();
    assert h[..2][..1] == [h[0]] && h[..2] == [h[0], h[1]];
    assert 70 / WORD_BITS == 1 && Marks(h[2], 5);
    assert AccessedSinceArmed([{}, {}], h[..2], 5);
  }

  /** The access is covered up: frame 5 reads as not accessed. */
  lemma FaultCoversAccess()
    ensures Possible(COVERED) && AccessedSinceArmed([{}, {}], COVERED, 5)
    ensures ReadPages(Run([{}, {}], COVERED), [PageOfFrame(5)])[0].accessBit == Some(false)
  {
    AccessCovered();
    CoveredIff([{}, {}], COVERED, 5);
    ResultsTellAccess([{}, {}], COVERED, [PageOfFrame(5)], 0);
    assert Arms([{}, {}], COVERED[0], 5) by {
      CoveredPages();
    }
  }

  /** Requests that share a tracking frame agree, and no reachable read is short. */
  lemma {:induction false} BatchAgrees(start: Bitmap, h: seq<Event>, pages: seq<ResolvedPage>, i: nat, j: nat)
    requires i < |pages| && j < |pages| && pages[i].trackingPfn == pages[j].trackingPfn
    ensures var r := ReadPages(Run(start, h), pages);
            && r[i].accessBitValid == r[j].accessBitValid
            && r[i].accessBit == r[j].accessBit && r[i].pageIdle == r[j].pageIdle
    ensures AllInRange(Run(start, h).bitmap, PfnsOf(pages) * Run(start, h).armed)
  {
    forall p | p in Run(start, h).armed
      ensures InRange(start, p)
    {
      RunTracksHistory(start, h, p);
    }
  }
}
