/** The VAPTR hook: each poll reads back the batch armed before, then arms a new one. */
module Vaptr {
  import opened Wrappers
  import opened Sums
  import opened IdleBitmap
  import opened PageAccess

  datatype RawSample = RawSample(
    key: string, address: string, pageAddr: string, available: bool, pageAddrInt: Option<nat>)

  datatype Pending = Pending(
    key: string, address: string, pageAddr: string, available: bool, page: Option<ResolvedPage>)

  datatype Row = Row(
    tsUptimeUs: nat, key: string, address: string, pageAddr: string, available: bool,
    mappedPfn: Option<Pfn>, trackingPfn: Option<Pfn>,
    physicalPageAddr: Option<nat>, trackingPhysicalPageAddr: Option<nat>,
    pageIdle: Option<bool>, accessBit: Option<bool>, accessBitValid: bool)

  /** The row for a sample, with or without a result for its page. */
  function RowFor(ts: nat, p: Pending, r: Option<AccessResult>): Row {
    match r
    case None => Row(ts, p.key, p.address, p.pageAddr, p.available, None, None, None, None, None, None, false)
    case Some(a) =>
      Row(ts, p.key, p.address, p.pageAddr, p.available, a.mappedPfn, a.trackingPfn, a.physicalPageAddr,
          a.trackingPhysicalPageAddr, a.pageIdle, a.accessBit, a.accessBitValid)
  }

  /** The resolved pages of a batch, in order. */
  function PagesOf(batch: seq<Pending>): seq<ResolvedPage> {
    if batch == [] then []
    else
      var last := batch[|batch| - 1];
      PagesOf(batch[..|batch| - 1]) + if last.page.Some? then [last.page.value] else []
  }

  lemma {:induction false} PagesOfPrefix(batch: seq<Pending>, i: nat)
    requires i < |batch| && batch[i].page.Some?
    ensures |PagesOf(batch[..i])| < |PagesOf(batch)|
    ensures PagesOf(batch)[|PagesOf(batch[..i])|] == batch[i].page.value
  {
    var init := batch[..|batch| - 1];
    if i < |init| {
      PagesOfPrefix(init, i);
      assert init[..i] == batch[..i];
    }
  }

  lemma {:induction false} PageInBatch(batch: seq<Pending>, page: ResolvedPage)
    ensures page in PagesOf(batch) <==> exists i :: 0 <= i < |batch| && batch[i].page == Some(page)
  {
    if batch == [] {
    } else {
      PageInBatch(batch[..|batch| - 1], page);
    }
  }

  function ReadBack(ts: nat, batch: seq<Pending>, s: Tracking): seq<Row> {
    seq(|batch|, i requires 0 <= i < |batch| =>
      RowFor(ts, batch[i],
             if batch[i].page.Some? then Some(ResultFor(batch[i].page.value, IdleByPfn(s, PagesOf(batch)))) else None))
  }

  /** Sample `i` is answered by the result at the index that counts the pages before it. */
  lemma RowAt(ts: nat, batch: seq<Pending>, s: Tracking, i: nat)
    requires i < |batch|
    ensures var next := |PagesOf(batch[..i])|;
            if batch[i].page.Some?
            then next < |PagesOf(batch)| && |PagesOf(batch[..i + 1])| == next + 1
                 && ReadBack(ts, batch, s)[i] == RowFor(ts, batch[i], Some(ReadPages(s, PagesOf(batch))[next]))
            else |PagesOf(batch[..i + 1])| == next && ReadBack(ts, batch, s)[i] == RowFor(ts, batch[i], None)
  {
    assert batch[..i + 1][..i] == batch[..i];
    if batch[i].page.Some? {
      PagesOfPrefix(batch, i);
    }
  }

  function Unread(ts: nat, batch: seq<Pending>): seq<Row> {
    seq(|batch|, i requires 0 <= i < |batch| => RowFor(ts, batch[i], None))
  }

  // ------------------------------------------------------- the environment

  /** What one look-up of the server process and its pages meets. */
  datatype Attempt = Attempt(alive: nat -> bool, discovered: Option<nat>, proc: Proc)

  datatype Reply = Reply(lines: seq<string>, unknownCommand: bool, returnCode: int)

  datatype PollEnv = PollEnv(keys: seq<string>, tsUs: nat, reply: Option<Reply>, first: Attempt, second: Attempt)

  predicate GoodPages(env: PollEnv) {
    env.first.proc.pageSize > 0 && env.second.proc.pageSize == env.first.proc.pageSize
  }

  /** The server process, and the proc files it was seen through. */
  datatype Server = Server(proc: Proc, pid: nat)

  /** The remembered process while it lives, else whatever is discovered. */
  function PidAt(known: Option<nat>, a: Attempt): Option<nat> {
    if known.Some? && a.alive(known.value) then known else a.discovered
  }

  function ServerAt(known: Option<nat>, a: Attempt): Option<Server> {
    match PidAt(known, a)
    case None => None
    case Some(pid) => Some(Server(a.proc, pid))
  }

  /** Every address resolves. */
  predicate Resolvable(s: Server, addrs: seq<nat>)
    requires s.proc.pageSize > 0
  {
    forall i :: 0 <= i < |addrs| ==> Backing(s.proc, Request(s.pid, addrs[i])).Ok?
  }

  /** The process whose pages answer `addrs`: the one at hand, or, when one of its
      addresses fails, the one found by looking again.  None when there is no process or
      the second try fails too. */
  function Answering(known: Option<nat>, env: PollEnv, addrs: seq<nat>): (r: Option<Server>)
    requires GoodPages(env)
    ensures r.Some? ==> r.value.proc.pageSize > 0 && Resolvable(r.value, addrs)
  {
    var first, second := ServerAt(known, env.first), ServerAt(None, env.second);
    if first.None? || Resolvable(first.value, addrs) then first
    else if second.None? || Resolvable(second.value, addrs) then second
    else None
  }

  /** The process remembered afterwards. */
  function PidAfter(known: Option<nat>, env: PollEnv, addrs: seq<nat>): Option<nat>
    requires GoodPages(env)
  {
    if addrs == [] then known
    else
      match Answering(known, env, addrs)
      case None => None
      case Some(server) => Some(server.pid)
  }

  function PageAt(server: Option<Server>, addr: nat): Option<ResolvedPage>
    requires server.Some? ==> server.value.proc.pageSize > 0
  {
    match server
    case None => None
    case Some(s) =>
      var req := Request(s.pid, addr);
      if Backing(s.proc, req).Ok? then Some(PageOf(s.proc, req, Backing(s.proc, req).value)) else None
  }

  function PagesAt(server: Option<Server>, addrs: seq<nat>): seq<Option<ResolvedPage>>
    requires server.Some? ==> server.value.proc.pageSize > 0
  {
    seq(|addrs|, i requires 0 <= i < |addrs| => PageAt(server, addrs[i]))
  }

  predicate Asks(raw: RawSample) {
    raw.available && raw.pageAddrInt.Some?
  }

  function AddrsOf(raw: seq<RawSample>): seq<nat> {
    if raw == [] then []
    else
      var last := raw[|raw| - 1];
      AddrsOf(raw[..|raw| - 1]) + if Asks(last) then [last.pageAddrInt.value] else []
  }

  lemma {:induction false} AsksForAddress(raw: seq<RawSample>, i: nat)
    requires i < |raw| && Asks(raw[i])
    ensures raw[i].pageAddrInt.value in AddrsOf(raw)
  {
    if i < |raw| - 1 {
      AsksForAddress(raw[..|raw| - 1], i);
    }
  }

  /** The addresses asked for are those of the available samples. */
  lemma {:induction false} AddressesAsked(raw: seq<RawSample>, a: nat)
    ensures a in AddrsOf(raw) <==>
            exists i :: 0 <= i < |raw| && raw[i].available && raw[i].pageAddrInt == Some(a)
  {
    if raw == [] {
    } else {
      var init := raw[..|raw| - 1];
      AddressesAsked(init, a);
      if i :| 0 <= i < |raw| && raw[i].available && raw[i].pageAddrInt == Some(a) {
        assert i < |init| ==> init[i] == raw[i];
      }
      if i :| 0 <= i < |init| && init[i].available && init[i].pageAddrInt == Some(a) {
        assert raw[i] == init[i];
      }
    }
  }

  /** Who may be asked first: the remembered process if it lives, or the one discovered. */
  predicate First(known: Option<nat>, env: PollEnv, pid: nat) {
    if known.Some? && env.first.alive(known.value) then known == Some(pid) else env.first.discovered == Some(pid)
  }

  /** Some address is not to be resolved for the process. */
  predicate Fails(proc: Proc, pid: nat, addrs: seq<nat>)
    requires proc.pageSize > 0
  {
    exists i :: 0 <= i < |addrs| && Backing(proc, Request(pid, addrs[i])).Err?
  }

  /** Who answers: the first process when all its addresses resolve, else the one found by
      looking again when all of them resolve there, else nobody. */
  lemma AnsweringIs(known: Option<nat>, env: PollEnv, addrs: seq<nat>, pid: nat)
    requires GoodPages(env)
    ensures First(known, env, pid) && !Fails(env.first.proc, pid, addrs) ==>
              Answering(known, env, addrs) == Some(Server(env.first.proc, pid))
    ensures First(known, env, pid) && Fails(env.first.proc, pid, addrs) ==>
              Answering(known, env, addrs)
              == match env.second.discovered
                 case None => None
                 case Some(other) =>
                   if Fails(env.second.proc, other, addrs) then None else Some(Server(env.second.proc, other))
    ensures (!exists p :: First(known, env, p)) ==> Answering(known, env, addrs) == None
  {
    var pidAt := PidAt(known, env.first);
    assert pidAt.Some? ==> First(known, env, pidAt.value);
  }

  function PendingFor(server: Option<Server>, raw: RawSample): Pending
    requires server.Some? ==> server.value.proc.pageSize > 0
  {
    Pending(raw.key, raw.address, raw.pageAddr, raw.available,
            if Asks(raw) then PageAt(server, raw.pageAddrInt.value) else None)
  }

  /** The batch a poll prepares from its raw samples. */
  function BatchOf(known: Option<nat>, env: PollEnv, raw: seq<RawSample>): seq<Pending>
    requires GoodPages(env)
  {
    seq(|raw|, i requires 0 <= i < |raw| => PendingFor(Answering(known, env, AddrsOf(raw)), raw[i]))
  }

  /** Each sample of the batch keeps its key and carries the page of its own address:
      all available ones do when a process answers, and none otherwise. */
  lemma BatchPages(known: Option<nat>, env: PollEnv, raw: seq<RawSample>, i: nat)
    requires GoodPages(env) && i < |raw|
    ensures var p, server := BatchOf(known, env, raw)[i], Answering(known, env, AddrsOf(raw));
            && p.key == raw[i].key && p.address == raw[i].address && p.available == raw[i].available
            && (p.page.Some? <==> Asks(raw[i]) && server.Some?)
            && (p.page.Some? ==>
                  && p.page.value.virtualAddress == raw[i].pageAddrInt.value
                  && Resolves(server.value.proc, Request(server.value.pid, raw[i].pageAddrInt.value), p.page.value))
  {
    if Asks(raw[i]) {
      AsksForAddress(raw, i);
    }
  }

  // ------------------------------------------------------- the server's replies

  /** Hexadecimal addresses, read and written. */
  datatype Hex = Hex(parse: string -> Option<nat>, write: nat -> string)

  /** An address that parses is rounded down to its page; anything else is "n/a". */
  function ParsedSample(hex: Hex, key: string, addr: string, pageSize: nat): RawSample
    requires pageSize > 0
  {
    if "0x" <= addr && hex.parse(addr).Some? then
      var page := hex.parse(addr).value / pageSize * pageSize;
      RawSample(key, addr, hex.write(page), true, Some(page))
    else RawSample(key, "n/a", "n/a", false, None)
  }

  /** The samples a reply holds, in order. */
  function ParsedSamples(hex: Hex, lines: seq<string>, pageSize: nat): seq<RawSample>
    requires pageSize > 0
  {
    seq(|lines| / 2, i requires 0 <= i < |lines| / 2 => ParsedSample(hex, lines[2 * i], lines[2 * i + 1], pageSize))
  }

  /** What a reply's two lines about one key say: the sample is available exactly when the
      second starts with "0x" and parses; then its page is the one that the address is in. */
  lemma SampleSays(hex: Hex, lines: seq<string>, pageSize: nat, k: nat)
    requires pageSize > 0
    ensures |ParsedSamples(hex, lines, pageSize)| == |lines| / 2
    ensures 2 * k + 1 < |lines| ==>
              var raw, addr := ParsedSamples(hex, lines, pageSize)[k], lines[2 * k + 1];
              && raw.key == lines[2 * k]
              && (raw.available <==> "0x" <= addr && hex.parse(addr).Some?)
              && (!raw.available ==> raw.address == "n/a" && raw.pageAddr == "n/a" && raw.pageAddrInt == None)
              && (raw.available ==>
                    && raw.address == addr && raw.pageAddrInt.Some?
                    && var page, value := raw.pageAddrInt.value, hex.parse(addr).value;
                    page % pageSize == 0 && page <= value < page + pageSize && raw.pageAddr == hex.write(page))
  {
    if 2 * k + 1 < |lines| && hex.parse(lines[2 * k + 1]).Some? {
      PageStart(hex.parse(lines[2 * k + 1]).value, pageSize);
    }
  }

  lemma PageStart(value: nat, pageSize: nat)
    requires pageSize > 0
    ensures var page := value / pageSize * pageSize;
            page == value - value % pageSize && page % pageSize == 0 && page <= value < page + pageSize
  {
    Quotient(value / pageSize * pageSize, pageSize, value / pageSize);
  }

  /** What the hook remembers from poll to poll besides the pending batch. */
  datatype Memory = Memory(keyed: bool, verified: bool, known: Option<nat>)

  /** Until one reply has been seen to work, an unknown-command reply is refused. */
  predicate Usable(m: Memory, reply: Option<Reply>) {
    reply.Some? && reply.value.returnCode == 0 && reply.value.lines != []
    && (m.verified || !reply.value.unknownCommand)
  }

  function RawOf(hex: Hex, m: Memory, env: PollEnv): seq<RawSample>
    requires GoodPages(env)
  {
    if Usable(m, env.reply) then ParsedSamples(hex, env.reply.value.lines, env.first.proc.pageSize) else []
  }

  /** The batch a poll fetches: none when the reply is not usable. */
  function Fetched(hex: Hex, m: Memory, env: PollEnv): (batch: seq<Pending>)
    requires GoodPages(env)
    ensures |batch| == |RawOf(hex, m, env)|
  {
    BatchOf(m.known, env, RawOf(hex, m, env))
  }

  /** A poll has a batch exactly when the reply is there, reports success, has two lines at
      least, and is no refusal from a server that was never seen to know the command. */
  lemma FetchedSize(hex: Hex, m: Memory, env: PollEnv)
    requires GoodPages(env)
    ensures |Fetched(hex, m, env)|
         == if env.reply.Some? && env.reply.value.returnCode == 0 && (m.verified || !env.reply.value.unknownCommand)
            then |env.reply.value.lines| / 2 else 0
  {
  }

  /** What is remembered after a poll. */
  function Remembered(hex: Hex, m: Memory, env: PollEnv): Memory
    requires GoodPages(env)
  {
    var keyed := m.keyed || env.keys != [];
    if !keyed then m
    else
      Memory(true,
             m.verified || (env.reply.Some? && !env.reply.value.unknownCommand && env.reply.value.lines != []),
             PidAfter(m.known, env, AddrsOf(RawOf(hex, m, env))))
  }

  // ------------------------------------------------------- the hook

  /** Rows recorded, the batch awaiting its read, and the tracker. */
  datatype HookState = HookState(samples: seq<Row>, pending: seq<Pending>, tracking: Tracking)

  function PollStep(s: HookState, ts: nat, batch: seq<Pending>): HookState {
    HookState(s.samples + ReadBack(ts, s.pending, s.tracking) + (if s.pending == [] then Unread(ts, batch) else []),
              batch, ArmPages(s.tracking, PagesOf(batch)))
  }

  class VAPtrHook {
    const tracker: PageAccessTracker
    const hex: Hex
    var samples: seq<Row>
    var keyNames: seq<string>
    var moduleVerified: bool
    var redisPid: Option<nat>
    var pendingSamples: seq<Pending>

    ghost function State(): HookState
      reads this, tracker, tracker.idle
    {
      HookState(samples, pendingSamples, tracker.State())
    }

    ghost function Recall(): Memory
      reads this
    {
      Memory(keyNames != [], moduleVerified, redisPid)
    }

    constructor (keyNames: seq<string>, tracker: PageAccessTracker, hex: Hex)
      ensures this.keyNames == keyNames && this.tracker == tracker && this.hex == hex
      ensures samples == [] && pendingSamples == [] && Recall() == Memory(keyNames != [], false, None)
    {
      this.keyNames, this.tracker, this.hex := keyNames, tracker, hex;
      samples, pendingSamples, redisPid, moduleVerified := [], [], None, false;
    }

    method GetRedisPid(a: Attempt) returns (pid: Option<nat>)
      modifies this`redisPid
      ensures pid == redisPid == PidAt(old(redisPid), a)
    {
      if redisPid.Some? {
        if a.alive(redisPid.value) {
          return redisPid;
        }
        redisPid := None;
      }
      redisPid := a.discovered;
      return redisPid;
    }

    /** One try at resolving every address for the current process. */
    method TryResolve(a: Attempt, addrs: seq<nat>) returns (ok: bool, pages: seq<Option<ResolvedPage>>)
      requires a.proc.pageSize > 0
      modifies this`redisPid
      ensures var server := ServerAt(old(redisPid), a);
              && (ok <==> server.None? || Resolvable(server.value, addrs))
              && (ok ==> pages == PagesAt(server, addrs))
              && redisPid == if ok && server.Some? then Some(server.value.pid) else None
    {
      ghost var server := ServerAt(redisPid, a);
      var pid := GetRedisPid(a);
      if pid.None? {
        return true, seq(|addrs|, i requires 0 <= i < |addrs| => None);
      }
      var requests := seq(|addrs|, i requires 0 <= i < |addrs| => Request(pid.value, addrs[i]));
      var resolved := ResolveMany(a.proc, requests);
      if resolved.Err? {
        redisPid := None;
        return false, [];
      }
      pages := seq(|addrs|, i requires 0 <= i < |resolved.value| => Some(resolved.value[i]));
      forall i | 0 <= i < |addrs|
        ensures Backing(a.proc, Request(pid.value, addrs[i])).Ok? && pages[i] == PageAt(server, addrs[i])
      {
        assert Resolves(a.proc, requests[i], resolved.value[i]);
      }
      ok := true;
    }

    /** A failed resolution is retried once, with the process looked up again. */
    method ResolvePageAccess(env: PollEnv, addrs: seq<nat>) returns (pages: seq<Option<ResolvedPage>>)
      requires GoodPages(env)
      modifies this`redisPid
      ensures pages == PagesAt(Answering(old(redisPid), env, addrs), addrs)
      ensures redisPid == PidAfter(old(redisPid), env, addrs)
    {
      if addrs == [] {
        return [];
      }
      var ok;
      ok, pages := TryResolve(env.first, addrs);
      if ok {
        return;
      }
      ok, pages := TryResolve(env.second, addrs);
      if !ok {
        pages := seq(|addrs|, i requires 0 <= i < |addrs| => None);
      }
    }

    /** Addresses go out as one list without their samples; the pages that come back are
        put beside the samples they were asked for. */
    method PreparePendingSamples(env: PollEnv, raw: seq<RawSample>) returns (batch: seq<Pending>)
      requires GoodPages(env)
      modifies this`redisPid
      ensures batch == BatchOf(old(redisPid), env, raw)
      ensures redisPid == PidAfter(old(redisPid), env, AddrsOf(raw))
    {
      var indices, addrs := ListRequests(raw);
      ghost var server := Answering(redisPid, env, addrs);
      var pages := ResolvePageAccess(env, addrs);
      var resolvedByIndex := PagesByIndex(indices, pages);
      assert forall i :: i in resolvedByIndex ==> resolvedByIndex[i] == PageAt(server, raw[i].pageAddrInt.value);
      batch := JoinPages(raw, resolvedByIndex);
    }

    method JoinPages(raw: seq<RawSample>, pageOf: map<nat, Option<ResolvedPage>>) returns (batch: seq<Pending>)
      ensures |batch| == |raw|
      ensures forall i :: 0 <= i < |raw| ==>
                            batch[i] == Pending(raw[i].key, raw[i].address, raw[i].pageAddr, raw[i].available,
                                                if i in pageOf then pageOf[i] else None)
    {
      batch := [];
      for i := 0 to |raw|
        invariant |batch| == i
        invariant forall j :: 0 <= j < i ==>
                                batch[j] == Pending(raw[j].key, raw[j].address, raw[j].pageAddr, raw[j].available,
                                                    if j in pageOf then pageOf[j] else None)
      {
        var page := if i in pageOf then pageOf[i] else None;
        batch := batch + [Pending(raw[i].key, raw[i].address, raw[i].pageAddr, raw[i].available, page)];
      }
    }

    method PagesByIndex(indices: seq<nat>, pages: seq<Option<ResolvedPage>>)
      returns (r: map<nat, Option<ResolvedPage>>)
      requires |indices| == |pages|
      ensures forall i :: i in r <==> i in indices
      ensures forall i :: i in r ==> exists k :: 0 <= k < |indices| && indices[k] == i && r[i] == pages[k]
    {
      r := map[];
      for k := 0 to |indices|
        invariant forall i :: i in r <==> i in indices[..k]
        invariant forall i :: i in r ==> exists m :: 0 <= m < k && indices[m] == i && r[i] == pages[m]
      {
        assert indices[..k + 1] == indices[..k] + [indices[k]];
        r := r[indices[k] := pages[k]];
      }
      assert indices[..|indices|] == indices;
    }

    /** The samples with an address, by index, and the addresses. */
    method ListRequests(raw: seq<RawSample>) returns (indices: seq<nat>, addrs: seq<nat>)
      ensures addrs == AddrsOf(raw) && |indices| == |addrs|
      ensures forall i :: i in indices <==> 0 <= i < |raw| && Asks(raw[i])
      ensures forall k :: 0 <= k < |indices| ==>
                            indices[k] < |raw| && Asks(raw[indices[k]]) && addrs[k] == raw[indices[k]].pageAddrInt.value
    {
      indices, addrs := [], [];
      for i := 0 to |raw|
        invariant addrs == AddrsOf(raw[..i]) && |indices| == |addrs|
        invariant forall j :: j in indices <==> 0 <= j < i && Asks(raw[j])
        invariant forall k :: 0 <= k < |indices| ==>
                                indices[k] < i && Asks(raw[indices[k]]) && addrs[k] == raw[indices[k]].pageAddrInt.value
      {
        assert raw[..i + 1][..i] == raw[..i];
        if raw[i].available && raw[i].pageAddrInt.Some? {
          indices, addrs := indices + [i], addrs + [raw[i].pageAddrInt.value];
        }
      }
      assert raw[..|raw|] == raw;
    }

    /** The pages of a batch that were resolved. */
    method ResolvedPages(batch: seq<Pending>) returns (pages: seq<ResolvedPage>)
      ensures pages == PagesOf(batch)
    {
      pages := [];
      for i := 0 to |batch|
        invariant pages == PagesOf(batch[..i])
      {
        assert batch[..i + 1][..i] == batch[..i];
        if batch[i].page.Some? {
          pages := pages + [batch[i].page.value];
        }
      }
      assert batch[..|batch|] == batch;
    }

    /** Results come back as one list for the resolved pages only; each is handed to
        the sample it belongs to. */
    method RecordPendingSamples(ts: nat) returns (ok: bool)
      modifies this`samples, tracker.idle`calls
      ensures ok ==> samples == old(samples) + ReadBack(ts, pendingSamples, tracker.State())
      ensures !ok ==> samples == old(samples)
      ensures old(tracker.idle.NoFaults()) ==> tracker.idle.NoFaults()
      ensures (old(tracker.idle.NoFaults())
               && AllInRange(tracker.idle.words, PfnsOf(PagesOf(pendingSamples)) * tracker.armedPfns)) ==> ok
    {
      if pendingSamples == [] {
        assert ReadBack(ts, pendingSamples, tracker.State()) == [];
        assert samples + [] == samples;
        return true;
      }
      var pages := ResolvedPages(pendingSamples);
      var results := tracker.ReadMany(pages);
      if results.Err? {
        return false;
      }
      AppendResults(ts, results.value, tracker.State());
      ok := true;
    }

    method AppendResults(ts: nat, results: seq<AccessResult>, ghost s: Tracking)
      requires results == ReadPages(s, PagesOf(pendingSamples))
      modifies this`samples
      ensures samples == old(samples) + ReadBack(ts, pendingSamples, s)
    {
      var next := 0;
      ghost var rows := ReadBack(ts, pendingSamples, s);
      for i := 0 to |pendingSamples|
        invariant next == |PagesOf(pendingSamples[..i])|
        invariant samples == old(samples) + rows[..i]
      {
        var result: Option<AccessResult> := None;
        RowAt(ts, pendingSamples, s, i);
        if pendingSamples[i].page.Some? {
          result := Some(results[next]);
          next := next + 1;
        }
        AppendRow(RowFor(ts, pendingSamples[i], result), old(samples), rows, i);
      }
      assert rows[..|pendingSamples|] == rows;
    }

    method AppendRow(row: Row, ghost past: seq<Row>, ghost rows: seq<Row>, ghost i: nat)
      requires i < |rows| && row == rows[i] && samples == past + rows[..i]
      modifies this`samples
      ensures samples == past + rows[..i + 1]
    {
      samples := samples + [row];
      assert rows[..i + 1] == rows[..i] + [row];
    }

    method ParseVaptrOutput(lines: seq<string>, pageSize: nat) returns (raw: seq<RawSample>)
      requires pageSize > 0
      ensures raw == ParsedSamples(hex, lines, pageSize)
    {
      raw := [];
      for i := 0 to |lines| / 2
        invariant |raw| == i
        invariant forall k :: 0 <= k < i ==> raw[k] == ParsedSample(hex, lines[2 * k], lines[2 * k + 1], pageSize)
      {
        var key, addr := lines[2 * i], lines[2 * i + 1];
        var available, pageAddr, pageAddrInt := "0x" <= addr, "n/a", None;
        if available {
          var parsed := hex.parse(addr);
          if parsed.None? {
            available, addr := false, "n/a";
          } else {
            pageAddrInt := Some(parsed.value / pageSize * pageSize);
            pageAddr := hex.write(pageAddrInt.value);
          }
        } else {
          addr := "n/a";
        }
        raw := raw + [RawSample(key, addr, pageAddr, available, pageAddrInt)];
      }
    }

    method FetchBatch(env: PollEnv) returns (batch: seq<Pending>)
      requires GoodPages(env) && keyNames != []
      modifies this`moduleVerified, this`redisPid
      ensures batch == Fetched(hex, old(Recall()), env)
      ensures Recall() == Remembered(hex, old(Recall()), env)
    {
      if env.reply.None? {
        return [];
      }
      var reply := env.reply.value;
      if !moduleVerified {
        if reply.unknownCommand {
          return [];
        }
        if reply.lines != [] {
          moduleVerified := true;
        }
      }
      if reply.returnCode != 0 || reply.lines == [] {
        return [];
      }
      var raw := ParseVaptrOutput(reply.lines, env.first.proc.pageSize);
      batch := PreparePendingSamples(env, raw);
    }

    method ArmPendingSamples(batch: seq<Pending>) returns (ok: bool)
      modifies tracker, tracker.idle
      ensures ok ==> tracker.State() == ArmPages(old(tracker.State()), PagesOf(batch))
                     && AllInRange(tracker.idle.words, PfnsOf(PagesOf(batch)))
      ensures old(tracker.idle.NoFaults()) && AllInRange(old(tracker.idle.words), PfnsOf(PagesOf(batch))) ==> ok
    {
      var pages := ResolvedPages(batch);
      ghost var wrote, failed;
      ok, wrote, failed := tracker.ArmMany(pages);
    }

    /** One poll.  `polled` is false while no keys are known; `ok` is false when a
        bitmap read or write raised. */
    method Poll(env: PollEnv) returns (ok: bool, polled: bool)
      requires GoodPages(env)
      requires keyNames == [] ==> pendingSamples == []
      modifies this, tracker, tracker.idle
      ensures keyNames == [] ==> pendingSamples == []
      ensures polled <==> old(keyNames) != [] || env.keys != []
      ensures !polled ==> ok && State() == old(State())
      ensures polled && ok ==> State() == PollStep(old(State()), env.tsUs, Fetched(hex, old(Recall()), env))
      ensures ok ==> Recall() == Remembered(hex, old(Recall()), env)
      ensures polled && ok ==> AllInRange(tracker.idle.words, PfnsOf(PagesOf(pendingSamples)))
    {
      ok, polled := true, false;
      if keyNames == [] {
        keyNames := env.keys;
      }
      if keyNames == [] {
        return;
      }
      polled := true;
      ghost var before := State();
      var hadPending := pendingSamples != [];
      ok := RecordPendingSamples(env.tsUs);
      if !ok {
        return;
      }
      pendingSamples := [];
      var batch := FetchBatch(env);
      assert tracker.State() == before.tracking;
      ok := ArmPendingSamples(batch);
      if !ok {
        return;
      }
      pendingSamples := batch;
      if !hadPending {
        AppendUnread(env.tsUs, batch);
      }
      assert samples + [] == samples;
    }

    method AppendUnread(ts: nat, batch: seq<Pending>)
      modifies this`samples
      ensures samples == old(samples) + Unread(ts, batch)
    {
      for i := 0 to |batch|
        invariant samples == old(samples) + Unread(ts, batch)[..i]
      {
        samples := samples + [RowFor(ts, batch[i], None)];
      }
    }
  }

  // ------------------------------------------------------- whole runs

  /** Polls, and the accesses to pages between them. */
  datatype Event = Polled(ts: nat, batch: seq<Pending>) | Touched(pfn: Pfn)

  function Step(s: HookState, e: Event): HookState {
    match e
    case Polled(ts, batch) => PollStep(s, ts, batch)
    case Touched(p) => s.(tracking := s.tracking.(bitmap := Touch(s.tracking.bitmap, p)))
  }

  function Run(start: Bitmap, h: seq<Event>): (s: HookState)
    ensures |s.tracking.bitmap| == |start|
  {
    if h == [] then HookState([], [], Tracking(start, {}))
    else Step(Run(start, h[..|h| - 1]), h[|h| - 1])
  }

  /** No poll raised: every page it armed is in the bitmap. */
  predicate Clean(start: Bitmap, h: seq<Event>) {
    forall i :: 0 <= i < |h| && h[i].Polled? ==> AllInRange(start, PfnsOf(PagesOf(h[i].batch)))
  }

  function LatestBatch(h: seq<Event>): seq<Pending> {
    if h == [] then []
    else if h[|h| - 1].Polled? then h[|h| - 1].batch
    else LatestBatch(h[..|h| - 1])
  }

  /** The frames touched since the latest poll. */
  function TouchedSincePoll(h: seq<Event>): set<Pfn> {
    if h == [] || h[|h| - 1].Polled? then {}
    else TouchedSincePoll(h[..|h| - 1]) + {h[|h| - 1].pfn}
  }

  /** A row without a result. */
  function BlankRow(ts: nat, p: Pending): Row {
    Row(ts, p.key, p.address, p.pageAddr, p.available, None, None, None, None, None, None, false)
  }

  function BlankRows(ts: nat, batch: seq<Pending>): seq<Row> {
    seq(|batch|, i requires 0 <= i < |batch| => BlankRow(ts, batch[i]))
  }

  /** The row a sample of the previous batch must get: its own page's data, and
      whether that page was touched since the previous poll armed it. */
  function TrueRow(ts: nat, p: Pending, touched: set<Pfn>): Row {
    match p.page
    case None => BlankRow(ts, p)
    case Some(page) =>
      var t := page.trackingPfn;
      Row(ts, p.key, p.address, p.pageAddr, p.available, page.mappedPfn, t, page.physicalPageAddr,
          page.trackingPhysicalPageAddr,
          if t.Some? then Some(t.value !in touched) else None,
          if t.Some? then Some(t.value in touched) else None, t.Some?)
  }

  function TrueRows(ts: nat, batch: seq<Pending>, touched: set<Pfn>): seq<Row> {
    seq(|batch|, i requires 0 <= i < |batch| => TrueRow(ts, batch[i], touched))
  }

  /** All rows a history calls for: each poll reports the batch of the poll before
      it, and the batch it fetches only when there was none. */
  function ExpectedRows(h: seq<Event>): seq<Row> {
    if h == [] then []
    else
      var before, e := h[..|h| - 1], h[|h| - 1];
      match e {
        case Touched(_) => ExpectedRows(before)
        case Polled(ts, batch) =>
          ExpectedRows(before) + TrueRows(ts, LatestBatch(before), TouchedSincePoll(before))
          + if LatestBatch(before) == [] then BlankRows(ts, batch) else []
      }
  }

  /** A frame of the latest batch is armed, and idle unless touched since. */
  lemma {:induction false} LatestBatchArmed(start: Bitmap, h: seq<Event>, p: Pfn)
    requires Clean(start, h)
    ensures Run(start, h).pending == LatestBatch(h)
    ensures p in PfnsOf(PagesOf(LatestBatch(h))) ==>
              && p in Run(start, h).tracking.armed && InRange(start, p)
              && (Idle(Run(start, h).tracking.bitmap, p) <==> p !in TouchedSincePoll(h))
  {
    if h == [] {
    } else {
      var before, e := h[..|h| - 1], h[|h| - 1];
      var s := Run(start, before).tracking;
      LatestBatchArmed(start, before, p);
      match e {
        case Touched(q) => TouchClearsOne(s.bitmap, q, p);
        case Polled(_, batch) =>
          if p in PfnsOf(PagesOf(batch)) {
            MarkSetSetsListed(s.bitmap, PfnsOf(PagesOf(batch)), p);
          }
      }
    }
  }

  lemma ReadBackIsTrue(start: Bitmap, h: seq<Event>, ts: nat, i: nat)
    requires Clean(start, h) && i < |LatestBatch(h)|
    ensures ReadBack(ts, LatestBatch(h), Run(start, h).tracking)[i]
         == TrueRow(ts, LatestBatch(h)[i], TouchedSincePoll(h))
  {
    var batch := LatestBatch(h);
    if batch[i].page.Some? && batch[i].page.value.trackingPfn.Some? {
      var page := batch[i].page.value;
      PageInBatch(batch, page);
      assert page.trackingPfn.value in PfnsOf(PagesOf(batch));
      LatestBatchArmed(start, h, page.trackingPfn.value);
    }
  }

  /** Over every run, the recorded rows are exactly the expected ones: each armed
      batch is read back once, at the next poll and before anything new is armed. */
  lemma {:induction false} RowsAreExpected(start: Bitmap, h: seq<Event>)
    requires Clean(start, h)
    ensures Run(start, h).samples == ExpectedRows(h)
  {
    if h == [] {
    } else {
      var before, e := h[..|h| - 1], h[|h| - 1];
      RowsAreExpected(start, before);
      LatestBatchArmed(start, before, 0);
      if e.Polled? {
        var batch := LatestBatch(before);
        assert Unread(e.ts, e.batch) == BlankRows(e.ts, e.batch);
        forall i | 0 <= i < |batch|
          ensures ReadBack(e.ts, batch, Run(start, before).tracking)[i]
               == TrueRows(e.ts, batch, TouchedSincePoll(before))[i]
        {
          ReadBackIsTrue(start, before, e.ts, i);
        }
        assert ReadBack(e.ts, batch, Run(start, before).tracking)
            == TrueRows(e.ts, batch, TouchedSincePoll(before));
      }
    }
  }

  /** A valid row reports a frame armed by a strictly earlier poll, with no poll in
      between, and says whether the frame was touched between the two. */
  lemma {:induction false} ValidRowsWereArmed(h: seq<Event>, r: nat)
    requires r < |ExpectedRows(h)| && ExpectedRows(h)[r].accessBitValid
    ensures exists j, k :: ArmedThenRead(h, j, k, ExpectedRows(h)[r])
  {
    var before, e := h[..|h| - 1], h[|h| - 1];
    var past := |ExpectedRows(before)|;
    if r < past {
      ValidRowsWereArmed(before, r);
      var j: nat, k: nat :| ArmedThenRead(before, j, k, ExpectedRows(before)[r]);
      ArmedThenReadLater(h, j, k, ExpectedRows(before)[r]);
      assert ExpectedRows(h)[r] == ExpectedRows(before)[r];
    } else {
      var i := r - past;
      assert i < |LatestBatch(before)|
             && ExpectedRows(h)[r] == TrueRow(e.ts, LatestBatch(before)[i], TouchedSincePoll(before));
      var j := NewRowWasArmed(h, i);
    }
  }

  lemma ArmedThenReadLater(h: seq<Event>, j: nat, k: nat, row: Row)
    requires h != [] && ArmedThenRead(h[..|h| - 1], j, k, row)
    ensures ArmedThenRead(h, j, k, row)
  {
    assert h[j + 1..k] == h[..|h| - 1][j + 1..k];
  }

  lemma NewRowWasArmed(h: seq<Event>, i: nat) returns (j: nat)
    requires h != [] && h[|h| - 1].Polled? && i < |LatestBatch(h[..|h| - 1])|
    requires TrueRow(h[|h| - 1].ts, LatestBatch(h[..|h| - 1])[i], TouchedSincePoll(h[..|h| - 1])).accessBitValid
    ensures var before := h[..|h| - 1];
            ArmedThenRead(h, j, |h| - 1, TrueRow(h[|h| - 1].ts, LatestBatch(before)[i], TouchedSincePoll(before)))
  {
    var before := h[..|h| - 1];
    j := LatestPoll(before);
    PageInBatch(LatestBatch(before), LatestBatch(before)[i].page.value);
    assert h[j + 1..|h| - 1] == before[j + 1..];
  }

  predicate TouchedIn(events: seq<Event>, p: Pfn) {
    Touched(p) in events
  }

  ghost predicate ArmedThenRead(h: seq<Event>, j: nat, k: nat, row: Row) {
    && j < k < |h| && h[j].Polled? && h[k].Polled? && row.tsUptimeUs == h[k].ts
    && (forall m :: j < m < k ==> !h[m].Polled?)
    && row.trackingPfn.Some? && row.trackingPfn.value in PfnsOf(PagesOf(h[j].batch))
    && row.accessBit == Some(TouchedIn(h[j + 1..k], row.trackingPfn.value))
  }

  /** The index of the latest poll, whose batch is the latest batch. */
  lemma {:induction false} LatestPoll(h: seq<Event>) returns (j: nat)
    requires LatestBatch(h) != []
    ensures j < |h| && h[j].Polled? && h[j].batch == LatestBatch(h)
    ensures forall m :: j < m < |h| ==> !h[m].Polled?
    ensures forall p :: p in TouchedSincePoll(h) <==> TouchedIn(h[j + 1..], p)
  {
    if h[|h| - 1].Polled? {
      j := |h| - 1;
    } else {
      var before := h[..|h| - 1];
      j := LatestPoll(before);
      assert h[j + 1..] == before[j + 1..] + [h[|h| - 1]];
    }
  }

  // ------------------------------------------------------- runs from the environment

  /** What the hook meets: polls with everything they see, and page accesses. */
  datatype Outside = Polling(env: PollEnv) | Touching(pfn: Pfn)

  predicate AllGood(w: seq<Outside>) {
    forall i :: 0 <= i < |w| && w[i].Polling? ==> GoodPages(w[i].env)
  }

  /** A hook at the start, with or without key names. */
  datatype Setup = Setup(hex: Hex, keyed: bool)

  /** What the hook remembers after `w`. */
  function MemoryAfter(u: Setup, w: seq<Outside>): Memory
    requires AllGood(w)
  {
    if w == [] then Memory(u.keyed, false, None)
    else
      var m := MemoryAfter(u, w[..|w| - 1]);
      match w[|w| - 1]
      case Touching(_) => m
      case Polling(env) => Remembered(u.hex, m, env)
  }

  /** The process remembered after a poll is the one that answered, none when nobody did;
      a poll that asked for no address leaves it alone. */
  lemma RememberedPid(hex: Hex, m: Memory, env: PollEnv)
    requires GoodPages(env)
    ensures var known, addrs := Remembered(hex, m, env).known, AddrsOf(RawOf(hex, m, env));
            if (m.keyed || env.keys != []) && addrs != []
            then (known.Some? <==> Answering(m.known, env, addrs).Some?)
                 && (known.Some? ==> known.value == Answering(m.known, env, addrs).value.pid)
            else known == m.known
  {
  }

  /** The hook has keys when it was given some or a poll found some. */
  lemma {:induction false} KeyedIff(u: Setup, w: seq<Outside>)
    requires AllGood(w)
    ensures MemoryAfter(u, w).keyed <==> u.keyed || exists i :: 0 <= i < |w| && w[i].Polling? && w[i].env.keys != []
  {
    if w == [] {
    } else {
      var before := w[..|w| - 1];
      KeyedIff(u, before);
      assert forall i :: 0 <= i < |before| ==> before[i] == w[i];
    }
  }

  /** A poll with keys saw a reply that was not empty and no refusal. */
  predicate Verifies(u: Setup, w: seq<Outside>, i: nat)
    requires AllGood(w)
  {
    && i < |w| && w[i].Polling? && MemoryAfter(u, w[..i + 1]).keyed
    && w[i].env.reply.Some? && w[i].env.reply.value.lines != [] && !w[i].env.reply.value.unknownCommand
  }

  /** The command counts as known exactly when some earlier poll saw it work. */
  lemma {:induction false} VerifiedIff(u: Setup, w: seq<Outside>)
    requires AllGood(w)
    ensures MemoryAfter(u, w).verified <==> exists i: nat :: Verifies(u, w, i)
  {
    if w == [] {
    } else {
      var before := w[..|w| - 1];
      VerifiedIff(u, before);
      forall i: nat
        ensures Verifies(u, w, i) <==> Verifies(u, before, i) || (i == |before| && Verifies(u, w, i))
      {
        VerifiesEarlier(u, w, i);
      }
      LastVerifies(u, w);
    }
  }

  lemma VerifiesEarlier(u: Setup, w: seq<Outside>, i: nat)
    requires AllGood(w) && w != []
    ensures i < |w| - 1 ==> (Verifies(u, w, i) <==> Verifies(u, w[..|w| - 1], i))
  {
    if i < |w| - 1 {
      assert w[..i + 1] == w[..|w| - 1][..i + 1];
    }
  }

  lemma LastVerifies(u: Setup, w: seq<Outside>)
    requires AllGood(w) && w != []
    ensures MemoryAfter(u, w).verified <==> MemoryAfter(u, w[..|w| - 1]).verified || Verifies(u, w, |w| - 1)
  {
    assert w[..|w| - 1 + 1] == w;
  }

  /** Whether the last thing in `w` is a poll that finds keys to ask for. */
  predicate Polls(u: Setup, w: seq<Outside>)
    requires AllGood(w) && w != []
  {
    w[|w| - 1].Polling? && MemoryAfter(u, w).keyed
  }

  /** The polls and accesses that `w` amounts to: each poll with the batch it fetches. */
  function Amounts(u: Setup, w: seq<Outside>): seq<Event>
    requires AllGood(w)
  {
    if w == [] then []
    else
      var before := w[..|w| - 1];
      match w[|w| - 1]
      case Touching(p) => Amounts(u, before) + [Touched(p)]
      case Polling(env) =>
        if Polls(u, w)
        then Amounts(u, before) + [Polled(env.tsUs, Fetched(u.hex, MemoryAfter(u, before), env))]
        else Amounts(u, before)
  }

  /** The row belongs to sample `k` of the reply to poll `j`. */
  predicate OwnPage(u: Setup, w: seq<Outside>, j: nat, k: nat, row: Row)
    requires AllGood(w)
  {
    && j < |w| && w[j].Polling? && w[j].env.reply.Some? && 2 * k + 1 < |w[j].env.reply.value.lines|
    && var env, m := w[j].env, MemoryAfter(u, w[..j]);
    RowOfSample(u.hex, row, env.reply.value.lines[2 * k], env.reply.value.lines[2 * k + 1],
                env.first.proc.pageSize, Answering(m.known, env, AddrsOf(RawOf(u.hex, m, env))))
  }

  /** The row has the key of the reply's line, and its address if that parses; page data,
      if any, is that of the page which holds this address for the process that answered. */
  predicate RowOfSample(hex: Hex, row: Row, key: string, addr: string, pageSize: nat, server: Option<Server>)
    requires pageSize > 0 && (server.Some? ==> server.value.proc.pageSize > 0)
  {
    && row.key == key && (row.available <==> "0x" <= addr && hex.parse(addr).Some?)
    && row.address == (if row.available then addr else "n/a")
    && (!row.available ==> row.pageAddr == "n/a" && row.mappedPfn.None? && row.trackingPfn.None?)
    && (row.available ==>
          && var start := hex.parse(row.address).value - hex.parse(row.address).value % pageSize;
          && row.pageAddr == hex.write(start)
          && (row.mappedPfn.Some? || row.trackingPfn.Some? ==>
                && server.Some?
                && var req := Request(server.value.pid, start);
                Backing(server.value.proc, req).Ok?
                && RowShows(row, PageOf(server.value.proc, req, Backing(server.value.proc, req).value))))
  }

  predicate RowShows(row: Row, page: ResolvedPage) {
    && row.mappedPfn == page.mappedPfn && row.trackingPfn == page.trackingPfn
    && row.physicalPageAddr == page.physicalPageAddr
    && row.trackingPhysicalPageAddr == page.trackingPhysicalPageAddr
  }

  /** The rows a batch can give: with its page's data, or without. */
  predicate RowFrom(row: Row, p: Pending) {
    && row.key == p.key && row.address == p.address && row.pageAddr == p.pageAddr && row.available == p.available
    && (row.mappedPfn.Some? || row.trackingPfn.Some? ==> p.page.Some? && RowShows(row, p.page.value))
  }

  lemma BatchRowOwnsPage(u: Setup, w: seq<Outside>, j: nat, k: nat, row: Row)
    requires AllGood(w) && j < |w| && w[j].Polling?
    requires var batch := Fetched(u.hex, MemoryAfter(u, w[..j]), w[j].env); k < |batch| && RowFrom(row, batch[k])
    ensures OwnPage(u, w, j, k, row)
  {
    var m, env := MemoryAfter(u, w[..j]), w[j].env;
    var raw, lines, pageSize := RawOf(u.hex, m, env), env.reply.value.lines, env.first.proc.pageSize;
    BatchPages(m.known, env, raw, k);
    SampleSays(u.hex, lines, pageSize, k);
    if raw[k].available {
      PageStart(u.hex.parse(lines[2 * k + 1]).value, pageSize);
    }
  }

  /** Some poll of `w` fetched the batch that is pending. */
  lemma {:induction false} PendingWasFetched(u: Setup, w: seq<Outside>) returns (j: nat)
    requires AllGood(w) && LatestBatch(Amounts(u, w)) != []
    ensures j < |w| && w[j].Polling?
    ensures LatestBatch(Amounts(u, w)) == Fetched(u.hex, MemoryAfter(u, w[..j]), w[j].env)
  {
    var before, events := w[..|w| - 1], Amounts(u, w);
    if Polls(u, w) {
      j := |w| - 1;
    } else {
      assert w[|w| - 1].Touching? ==> events[..|events| - 1] == Amounts(u, before);
      j := PendingWasFetched(u, before);
      assert w[..j] == before[..j];
    }
  }

  /** A poll's new rows come from the pending batch, or from its own when none was
      pending. */
  lemma NewRowFrom(events: seq<Event>, h: seq<Event>, r: nat)
    requires h != [] && h[|h| - 1].Polled? && h[..|h| - 1] == events
    requires |ExpectedRows(events)| <= r < |ExpectedRows(h)|
    ensures var k, pending := r - |ExpectedRows(events)|, LatestBatch(events);
            var source := if pending == [] then h[|h| - 1].batch else pending;
            k < |source| && RowFrom(ExpectedRows(h)[r], source[k])
  {
  }

  lemma OwnPageLater(u: Setup, w: seq<Outside>, j: nat, k: nat, row: Row)
    requires AllGood(w) && w != [] && OwnPage(u, w[..|w| - 1], j, k, row)
    ensures OwnPage(u, w, j, k, row)
  {
    assert w[..j] == w[..|w| - 1][..j];
  }

  /** Only a poll that finds keys adds rows. */
  lemma RowsAdded(u: Setup, w: seq<Outside>)
    requires AllGood(w) && w != []
    ensures var before, h := Amounts(u, w[..|w| - 1]), Amounts(u, w);
            if Polls(u, w)
            then h != [] && h[..|h| - 1] == before
                 && h[|h| - 1] == Polled(w[|w| - 1].env.tsUs,
                                         Fetched(u.hex, MemoryAfter(u, w[..|w| - 1]), w[|w| - 1].env))
            else ExpectedRows(h) == ExpectedRows(before)
  {
    var before, h := Amounts(u, w[..|w| - 1]), Amounts(u, w);
    if w[|w| - 1].Touching? {
      assert h[..|h| - 1] == before;
    }
  }

  lemma NewRowOwnsPage(u: Setup, w: seq<Outside>, r: nat) returns (j: nat, k: nat)
    requires AllGood(w) && w != [] && Polls(u, w)
    requires |ExpectedRows(Amounts(u, w[..|w| - 1]))| <= r < |ExpectedRows(Amounts(u, w))|
    ensures OwnPage(u, w, j, k, ExpectedRows(Amounts(u, w))[r])
  {
    var before, h := w[..|w| - 1], Amounts(u, w);
    var events, row := Amounts(u, before), ExpectedRows(h)[r];
    RowsAdded(u, w);
    NewRowFrom(events, h, r);
    k := r - |ExpectedRows(events)|;
    if LatestBatch(events) == [] {
      j := |w| - 1;
      BatchRowOwnsPage(u, w, j, k, row);
    } else {
      j := PendingWasFetched(u, before);
      BatchRowOwnsPage(u, before, j, k, row);
      OwnPageLater(u, w, j, k, row);
    }
  }

  lemma {:induction false} ExpectedRowOwnsPage(u: Setup, w: seq<Outside>, r: nat) returns (j: nat, k: nat)
    requires AllGood(w) && r < |ExpectedRows(Amounts(u, w))|
    ensures OwnPage(u, w, j, k, ExpectedRows(Amounts(u, w))[r])
    decreases |w|
  {
    var before := w[..|w| - 1];
    RowsAdded(u, w);
    if r < |ExpectedRows(Amounts(u, before))| {
      j, k := ExpectedRowOwnsPage(u, before, r);
      OwnPageLater(u, w, j, k, ExpectedRows(Amounts(u, before))[r]);
    } else {
      j, k := NewRowOwnsPage(u, w, r);
    }
  }

  /** Over everything the hook can meet, every recorded row has the key and address of a
      sample some poll fetched, and the page data of the page that this sample's own
      address resolves to. */
  lemma RowsOwnTheirPages(u: Setup, start: Bitmap, w: seq<Outside>, r: nat) returns (j: nat, k: nat)
    requires AllGood(w) && Clean(start, Amounts(u, w)) && r < |Run(start, Amounts(u, w)).samples|
    ensures OwnPage(u, w, j, k, Run(start, Amounts(u, w)).samples[r])
  {
    RowsAreExpected(start, Amounts(u, w));
    j, k := ExpectedRowOwnsPage(u, w, r);
  }
}
