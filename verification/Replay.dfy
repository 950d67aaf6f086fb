/** Breakpoint generation from a Redis MONITOR log, and the replay that honours it. */
module Replay {
  import opened Wrappers

  /** A log line that both programs' patterns accept, with its quoted tokens, or one
      that neither accepts. */
  datatype Line = Monitor(tokens: seq<string>) | Other

  /** The primary key of a line; "" when it has none. */
  function KeyOf(line: Line): string {
    if line.Monitor? && |line.tokens| >= 2 then line.tokens[1] else ""
  }

  predicate IsSplitTarget(key: string) {
    "user" <= key
  }

  /** Lines whose primary key is `k`, among the first `n`. */
  function Accesses(lines: seq<Line>, k: string, n: nat): nat
    requires n <= |lines|
  {
    if n == 0 then 0 else Accesses(lines, k, n - 1) + if KeyOf(lines[n - 1]) == k then 1 else 0
  }

  /** The line's second token is `k`. */
  predicate Names(line: Line, k: string) {
    line.Monitor? && |line.tokens| >= 2 && line.tokens[1] == k
  }

  function Naming(lines: seq<Line>, k: string, n: nat): set<nat>
    requires n <= |lines|
  {
    set i: nat | i < n && Names(lines[i], k)
  }

  /** The accesses of a key are the lines whose second token it is. */
  lemma {:induction false} AccessesAreNaming(lines: seq<Line>, k: string, n: nat)
    requires n <= |lines| && k != ""
    ensures Accesses(lines, k, n) == |Naming(lines, k, n)|
  {
    if n == 0 {
      assert Naming(lines, k, 0) == {};
    } else {
      AccessesAreNaming(lines, k, n - 1);
      NamingNext(lines, k, n - 1);
    }
  }

  lemma NamingNext(lines: seq<Line>, k: string, n: nat)
    requires n < |lines|
    ensures |Naming(lines, k, n + 1)| == |Naming(lines, k, n)| + if Names(lines[n], k) then 1 else 0
  {
    assert Naming(lines, k, n + 1) == Naming(lines, k, n) + if Names(lines[n], k) then {n} else {};
  }

  // ------------------------------------------------------- counting

  /** Exactly the split targets that occur in the first `n` lines, with their access
      counts. */
  predicate CountsOf(counts: map<string, nat>, lines: seq<Line>, n: nat)
    requires n <= |lines|
  {
    && (forall k :: k in counts ==> IsSplitTarget(k) && counts[k] == Accesses(lines, k, n) && counts[k] > 0)
    && (forall i :: 0 <= i < n && IsSplitTarget(KeyOf(lines[i])) ==> KeyOf(lines[i]) in counts)
  }

  lemma {:induction false} NoAccess(lines: seq<Line>, k: string, n: nat)
    requires n <= |lines| && forall i :: 0 <= i < n ==> KeyOf(lines[i]) != k
    ensures Accesses(lines, k, n) == 0
  {
    if n == 0 {
    } else {
      NoAccess(lines, k, n - 1);
    }
  }

  lemma CountsOfNext(counts: map<string, nat>, lines: seq<Line>, n: nat)
    requires n < |lines| && CountsOf(counts, lines, n)
    ensures var k := KeyOf(lines[n]);
            CountsOf(if IsSplitTarget(k) then counts[k := (if k in counts then counts[k] else 0) + 1] else counts,
                     lines, n + 1)
  {
    if KeyOf(lines[n]) !in counts && IsSplitTarget(KeyOf(lines[n])) {
      NoAccess(lines, KeyOf(lines[n]), n);
    }
  }

  /** The keys counted are the second tokens that start with "user"; each count is the
      number of lines with that second token. */
  lemma CountsAreLines(counts: map<string, nat>, lines: seq<Line>, k: string)
    requires CountsOf(counts, lines, |lines|)
    ensures k in counts <==> |k| >= 4 && k[..4] == "user" && exists i :: 0 <= i < |lines| && Names(lines[i], k)
    ensures k in counts ==> counts[k] == |Naming(lines, k, |lines|)|
  {
    if k in counts {
      AccessesAreNaming(lines, k, |lines|);
      assert Naming(lines, k, |lines|) != {};
      var i :| i in Naming(lines, k, |lines|);
      assert Names(lines[i], k);
    }
  }

  method ParseLog(lines: seq<Line>) returns (counts: map<string, nat>)
    ensures CountsOf(counts, lines, |lines|)
  {
    counts := map[];
    for n := 0 to |lines|
      invariant CountsOf(counts, lines, n)
    {
      var line := lines[n];
      CountsOfNext(counts, lines, n);
      if line.Monitor? && |line.tokens| >= 2 {
        var key := line.tokens[1];
        if IsSplitTarget(key) {
          counts := counts[key := (if key in counts then counts[key] else 0) + 1];
        }
      }
    }
  }

  // ------------------------------------------------------- combinations

  predicate Distinct<T(==)>(s: seq<T>) {
    forall i, j :: 0 <= i < j < |s| ==> s[i] != s[j]
  }

  /** One breakpoint value per key: all keys before the trace, or each key somewhere
      from its first access to past its last. */
  predicate ValidCombo(counts: map<string, nat>, keys: seq<string>, values: seq<int>) {
    && |values| == |keys|
    && (|| (forall i :: 0 <= i < |values| ==> values[i] == -1)
        || (forall i :: 0 <= i < |values| ==> keys[i] in counts && 0 <= values[i] <= counts[keys[i]] + 1))
  }

  function Constant(n: nat, v: int): (r: seq<int>)
    ensures |r| == n && forall i :: 0 <= i < n ==> r[i] == v
  {
    seq(n, i requires 0 <= i => v)
  }

  function Maxima(counts: map<string, nat>, keys: seq<string>): (r: seq<int>)
    requires forall k :: k in keys ==> k in counts
    ensures |r| == |keys| && forall i :: 0 <= i < |keys| ==> r[i] == counts[keys[i]] + 1
  {
    seq(|keys|, i requires 0 <= i < |keys| => counts[keys[i]] + 1)
  }

  /** Only key `i` unbroken, every other key at its first access. */
  function SingleMax(counts: map<string, nat>, keys: seq<string>, i: nat): (r: seq<int>)
    requires i < |keys| && keys[i] in counts
    ensures |r| == |keys| && forall j :: 0 <= j < |keys| ==> r[j] == if j == i then counts[keys[i]] + 1 else 0
  {
    Constant(|keys|, 0)[i := counts[keys[i]] + 1]
  }

  /** Accumulates combinations, without repeats and up to `maxCombos`. */
  class ComboList {
    const maxCombos: int
    var combos: seq<seq<int>>
    var seen: set<seq<int>>

    ghost predicate Valid()
      reads this
    {
      && Distinct(combos) && (forall c :: c in seen <==> c in combos)
      && (|combos| <= maxCombos || combos == [])
    }

    constructor (maxCombos: int)
      ensures Valid() && combos == [] && this.maxCombos == maxCombos
    {
      this.maxCombos, combos, seen := maxCombos, [], {};
    }

    method Add(values: seq<int>)
      requires Valid()
      modifies this
      ensures Valid()
      ensures combos == if values !in old(combos) && |old(combos)| < maxCombos
                        then old(combos) + [values] else old(combos)
      ensures forall c :: c in combos <==> c in old(combos) || (c == values && |old(combos)| < maxCombos)
    {
      if values !in seen && |combos| < maxCombos {
        seen := seen + {values};
        combos := combos + [values];
      }
    }
  }

  /** A column order for the keys of a dictionary. */
  method ListKeys(counts: map<string, nat>) returns (keys: seq<string>)
    ensures Distinct(keys) && |keys| == |counts| && forall k :: k in keys <==> k in counts
  {
    keys := [];
    var rest := counts.Keys;
    while rest != {}
      invariant rest <= counts.Keys && Distinct(keys) && |keys| + |rest| == |counts|
      invariant forall k :: k in keys <==> k in counts && k !in rest
      decreases rest
    {
      var k :| k in rest;
      assert forall i :: 0 <= i < |keys| ==> keys[i] in keys;
      keys, rest := keys + [k], rest - {k};
    }
  }

  /** A number from 0 to `max`; each one is drawn by itself. */
  function UpTo(random: nat, max: nat): nat {
    if random <= max then random else max
  }

  /** The first `n` columns of a random combination. */
  function Draw(counts: map<string, nat>, keys: seq<string>, random: nat -> nat, n: nat): (r: seq<int>)
    requires n <= |keys| && forall i :: 0 <= i < |keys| ==> keys[i] in counts
    ensures |r| == n
  {
    if n == 0 then [] else Draw(counts, keys, random, n - 1) + [UpTo(random(n - 1), counts[keys[n - 1]] + 1)]
  }

  /** In each column every value from 0 to past the last access can be drawn. */
  lemma {:induction false} DrawsAny(counts: map<string, nat>, keys: seq<string>, random: nat -> nat, n: nat, i: nat)
    requires i < n <= |keys| && forall i :: 0 <= i < |keys| ==> keys[i] in counts
    ensures 0 <= Draw(counts, keys, random, n)[i] <= counts[keys[i]] + 1
    ensures random(i) <= counts[keys[i]] + 1 ==> Draw(counts, keys, random, n)[i] == random(i)
  {
    if i < n - 1 {
      DrawsAny(counts, keys, random, n - 1, i);
    }
  }

  /** `random(a, i)` is the number drawn for column `i` in attempt `a`. */
  method GenerateCombinations(counts: map<string, nat>, maxCombos: int, random: nat -> nat -> nat)
    returns (keys: seq<string>, combos: seq<seq<int>>)
    ensures Distinct(keys) && forall k :: k in keys <==> k in counts
    ensures forall c :: c in combos ==> ValidCombo(counts, keys, c)
    ensures Distinct(combos)
    ensures counts == map[] ==> combos == [[]]
    ensures counts != map[] ==> |combos| <= maxCombos || combos == []
    ensures counts != map[] && maxCombos >= 1 ==> Constant(|keys|, -1) in combos
    ensures counts != map[] && maxCombos >= 2 ==> Constant(|keys|, 0) in combos
    ensures counts != map[] && maxCombos >= 3 ==> Maxima(counts, keys) in combos
    ensures counts != map[] && maxCombos >= 3 + |keys| ==>
              forall i :: 0 <= i < |keys| ==> SingleMax(counts, keys, i) in combos
    ensures counts != map[] && |combos| < maxCombos ==>
              && (forall i :: 0 <= i < |keys| ==> SingleMax(counts, keys, i) in combos)
              && (forall a: nat :: a < maxCombos * 10 ==> Draw(counts, keys, random(a), |keys|) in combos)
  {
    keys := ListKeys(counts);
    if counts == map[] {
      return keys, [[]];
    }
    var list := new ComboList(maxCombos);
    AddFixed(list, counts, keys);
    AddSingles(list, counts, keys);
    AddRandom(list, counts, keys, random);
    return keys, list.combos;
  }

  /** Combinations for these keys only. */
  ghost predicate AllValid(combos: seq<seq<int>>, counts: map<string, nat>, keys: seq<string>) {
    forall c :: c in combos ==> ValidCombo(counts, keys, c)
  }

  method AddValid(list: ComboList, counts: map<string, nat>, keys: seq<string>, values: seq<int>)
    requires list.Valid() && AllValid(list.combos, counts, keys) && ValidCombo(counts, keys, values)
    modifies list
    ensures list.Valid() && AllValid(list.combos, counts, keys)
    ensures old(list.combos) <= list.combos && |list.combos| <= |old(list.combos)| + 1
    ensures |old(list.combos)| < list.maxCombos ==> values in list.combos
  {
    list.Add(values);
  }

  method AddFixed(list: ComboList, counts: map<string, nat>, keys: seq<string>)
    requires list.Valid() && list.combos == [] && forall k :: k in keys ==> k in counts
    modifies list
    ensures list.Valid() && AllValid(list.combos, counts, keys) && |list.combos| <= 3
    ensures list.maxCombos >= 1 ==> Constant(|keys|, -1) in list.combos
    ensures list.maxCombos >= 2 ==> Constant(|keys|, 0) in list.combos
    ensures list.maxCombos >= 3 ==> Maxima(counts, keys) in list.combos
  {
    AddValid(list, counts, keys, Constant(|keys|, -1));
    AddValid(list, counts, keys, Constant(|keys|, 0));
    AddValid(list, counts, keys, Maxima(counts, keys));
  }

  method AddSingles(list: ComboList, counts: map<string, nat>, keys: seq<string>)
    requires list.Valid() && AllValid(list.combos, counts, keys) && forall k :: k in keys ==> k in counts
    requires |list.combos| <= 3
    modifies list
    ensures list.Valid() && AllValid(list.combos, counts, keys) && old(list.combos) <= list.combos
    ensures list.maxCombos >= 3 + |keys| || |list.combos| < list.maxCombos ==>
              forall i :: 0 <= i < |keys| ==> SingleMax(counts, keys, i) in list.combos
  {
    var i := 0;
    while i < |keys| && |list.combos| < list.maxCombos
      invariant 0 <= i <= |keys| && |list.combos| <= 3 + i
      invariant list.Valid() && AllValid(list.combos, counts, keys) && old(list.combos) <= list.combos
      invariant forall j :: 0 <= j < i ==> SingleMax(counts, keys, j) in list.combos
    {
      AddValid(list, counts, keys, SingleMax(counts, keys, i));
      i := i + 1;
    }
  }

  method AddDraw(list: ComboList, counts: map<string, nat>, keys: seq<string>, random: nat -> nat -> nat, a: nat)
    requires list.Valid() && AllValid(list.combos, counts, keys) && forall k :: k in keys ==> k in counts
    requires |list.combos| < list.maxCombos
    modifies list
    ensures list.Valid() && AllValid(list.combos, counts, keys) && old(list.combos) <= list.combos
    ensures Draw(counts, keys, random(a), |keys|) in list.combos
  {
    var values := Draw(counts, keys, random(a), |keys|);
    forall i | 0 <= i < |keys|
      ensures 0 <= values[i] <= counts[keys[i]] + 1
    {
      DrawsAny(counts, keys, random(a), |keys|, i);
    }
    AddValid(list, counts, keys, values);
  }

  method AddRandom(list: ComboList, counts: map<string, nat>, keys: seq<string>, random: nat -> nat -> nat)
    requires list.Valid() && AllValid(list.combos, counts, keys) && forall k :: k in keys ==> k in counts
    modifies list
    ensures list.Valid() && AllValid(list.combos, counts, keys) && old(list.combos) <= list.combos
    ensures |list.combos| < list.maxCombos ==>
              forall a: nat :: a < list.maxCombos * 10 ==> Draw(counts, keys, random(a), |keys|) in list.combos
  {
    var attempt := 0;
    while attempt < list.maxCombos * 10 && |list.combos| < list.maxCombos
      invariant 0 <= attempt
      invariant list.Valid() && AllValid(list.combos, counts, keys) && old(list.combos) <= list.combos
      invariant forall a: nat :: a < attempt ==> Draw(counts, keys, random(a), |keys|) in list.combos
    {
      AddDraw(list, counts, keys, random, attempt);
      attempt := attempt + 1;
    }
  }

  // ------------------------------------------------------- replay

  /** Lines with the second token `k` whose command succeeded, and such lines with any
      second token but the empty one. */
  function SentNaming(lines: seq<Line>, sent: nat -> bool, k: string, n: nat): set<nat>
    requires n <= |lines|
  {
    set i: nat | i < n && Names(lines[i], k) && sent(i)
  }

  function SentNamed(lines: seq<Line>, sent: nat -> bool, n: nat): set<nat>
    requires n <= |lines|
  {
    set i: nat | i < n && lines[i].Monitor? && |lines[i].tokens| >= 2 && lines[i].tokens[1] != "" && sent(i)
  }

  lemma SentNamingNext(lines: seq<Line>, sent: nat -> bool, k: string, n: nat)
    requires n < |lines|
    ensures |SentNaming(lines, sent, k, n + 1)|
         == |SentNaming(lines, sent, k, n)| + if Names(lines[n], k) && sent(n) then 1 else 0
  {
    assert SentNaming(lines, sent, k, n + 1)
        == SentNaming(lines, sent, k, n) + if Names(lines[n], k) && sent(n) then {n} else {};
  }

  lemma {:induction false} DoneIsSize(lines: seq<Line>, sent: nat -> bool, k: string, n: nat)
    requires n <= |lines| && k != ""
    ensures Done(lines, sent, k, n) == |SentNaming(lines, sent, k, n)|
  {
    if n == 0 {
      assert SentNaming(lines, sent, k, 0) == {};
    } else {
      DoneIsSize(lines, sent, k, n - 1);
      SentNamingNext(lines, sent, k, n - 1);
    }
  }

  lemma SentNamedNext(lines: seq<Line>, sent: nat -> bool, n: nat)
    requires n < |lines|
    ensures |SentNamed(lines, sent, n + 1)|
         == |SentNamed(lines, sent, n)| + if n in SentNamed(lines, sent, n + 1) then 1 else 0
  {
    assert SentNamed(lines, sent, n + 1)
        == SentNamed(lines, sent, n) + if n in SentNamed(lines, sent, n + 1) then {n} else {};
  }

  lemma {:induction false} KeyedIsSize(lines: seq<Line>, sent: nat -> bool, n: nat)
    requires n <= |lines|
    ensures Keyed(lines, sent, n) == |SentNamed(lines, sent, n)|
  {
    if n == 0 {
      assert SentNamed(lines, sent, 0) == {};
    } else {
      KeyedIsSize(lines, sent, n - 1);
      SentNamedNext(lines, sent, n - 1);
    }
  }

  /** A breakpoint row: one column per key. */
  datatype Breakpoints = Breakpoints(keys: seq<string>, values: seq<int>)

  predicate WellFormed(b: Breakpoints) {
    |b.keys| == |b.values| && Distinct(b.keys)
  }

  function AsMap(b: Breakpoints, n: nat): map<string, int>
    requires |b.keys| == |b.values| && n <= |b.keys|
  {
    if n == 0 then map[] else AsMap(b, n - 1)[b.keys[n - 1] := b.values[n - 1]]
  }

  /** What reaches the server: page breaks, and commands by line number. */
  datatype Event = Break(key: string) | Send(line: nat)

  /** Commands on `k` that succeeded, among the first `n` lines. */
  function Done(lines: seq<Line>, sent: nat -> bool, k: string, n: nat): nat
    requires n <= |lines|
  {
    if n == 0 then 0
    else Done(lines, sent, k, n - 1) + if KeyOf(lines[n - 1]) == k && sent(n - 1) then 1 else 0
  }

  predicate IsCommand(line: Line) {
    line.Monitor? && line.tokens != []
  }

  /** Line `i` is about to be the access its key breaks at. */
  predicate Due(lines: seq<Line>, bp: map<string, int>, sent: nat -> bool, i: nat)
    requires i < |lines|
  {
    var k := KeyOf(lines[i]);
    k != "" && k in bp && bp[k] != -1 && Done(lines, sent, k, i) == bp[k]
  }

  /** The events of the trace itself, in order. */
  function TraceEvents(lines: seq<Line>, bp: map<string, int>, sent: nat -> bool, n: nat): seq<Event>
    requires n <= |lines|
  {
    if n == 0 then []
    else
      TraceEvents(lines, bp, sent, n - 1) + LineEvents(lines, bp, sent, n - 1)
  }

  /** The keys broken before the trace, in column order. */
  function PreBreaks(b: Breakpoints, n: nat): seq<Event>
    requires |b.keys| == |b.values| && n <= |b.keys|
  {
    if n == 0 then []
    else PreBreaks(b, n - 1) + if b.values[n - 1] == -1 then [Break(b.keys[n - 1])] else []
  }

  function BreakPositions(events: seq<Event>): set<nat> {
    set p: nat | p < |events| && events[p].Break?
  }

  /** The page breaks among the events. */
  function TotalBreaks(events: seq<Event>): nat {
    |BreakPositions(events)|
  }

  lemma TotalGrows(events: seq<Event>, e: Event)
    ensures TotalBreaks(events + [e]) == TotalBreaks(events) + if e.Break? then 1 else 0
  {
    assert BreakPositions(events + [e]) == BreakPositions(events) + if e.Break? then {|events|} else {};
  }

  lemma {:induction false} TotalJoined(a: seq<Event>, b: seq<Event>)
    ensures TotalBreaks(a + b) == TotalBreaks(a) + TotalBreaks(b)
    decreases |b|
  {
    if b == [] {
      assert a + b == a && BreakPositions(b) == {};
    } else {
      var init, last := b[..|b| - 1], b[|b| - 1];
      TotalJoined(a, init);
      TotalGrows(a + init, last);
      TotalGrows(init, last);
      assert a + b == a + init + [last] && b == init + [last];
    }
  }

  /** How many of the numbers from `lo` to below `hi` satisfy `p`. */
  function HowMany(p: nat -> bool, lo: nat, hi: nat): nat
    requires lo <= hi
  {
    if hi == lo then 0 else HowMany(p, lo, hi - 1) + if p(hi - 1) then 1 else 0
  }

  function Those(p: nat -> bool, lo: nat, hi: nat): set<nat> {
    set n: nat | lo <= n < hi && p(n)
  }

  lemma OneMore(p: nat -> bool, lo: nat, hi: nat)
    requires lo <= hi
    ensures |Those(p, lo, hi + 1)| == |Those(p, lo, hi)| + if p(hi) then 1 else 0
  {
    assert Those(p, lo, hi + 1) == Those(p, lo, hi) + if p(hi) then {hi} else {};
  }

  lemma {:induction false} HowManyIsSize(p: nat -> bool, lo: nat, hi: nat)
    requires lo <= hi
    ensures HowMany(p, lo, hi) == |Those(p, lo, hi)|
  {
    if hi == lo {
      assert Those(p, lo, hi) == {};
    } else {
      HowManyIsSize(p, lo, hi - 1);
      OneMore(p, lo, hi - 1);
    }
  }

  lemma {:induction false} AllOfThem(p: nat -> bool, lo: nat, hi: nat)
    requires lo <= hi && forall n :: lo <= n < hi ==> p(n)
    ensures HowMany(p, 0, hi) == HowMany(p, 0, lo) + (hi - lo)
  {
    if hi > lo {
      AllOfThem(p, lo, hi - 1);
    }
  }

  const EXECUTE_MAX_ATTEMPTS := 2
  const BREAK_PAGE_MAX_ATTEMPTS := 2

  /** The server.  `accepts(line, attempt)` says which tries of a command succeed; for
      the n-th page break, `resolves(n)` whether its key has an address and
      `splits(n, attempt)` which tries of the split succeed. */
  class RedisClient {
    const accepts: (nat, nat) -> bool
    const resolves: nat -> bool
    const splits: (nat, nat) -> bool
    ghost var log: seq<Event>
    var breaks: nat

    /** Every page break whose address was found is in the log. */
    ghost predicate Valid()
      reads this
    {
      TotalBreaks(log) == HowMany(resolves, 0, breaks)
    }

    constructor (accepts: (nat, nat) -> bool, resolves: nat -> bool, splits: (nat, nat) -> bool)
      ensures this.accepts == accepts && this.resolves == resolves && this.splits == splits
      ensures log == [] && breaks == 0 && Valid()
    {
      assert BreakPositions([]) == {};
      this.accepts, this.resolves, this.splits, log, breaks := accepts, resolves, splits, [], 0;
    }

    function Sent(): nat -> bool {
      (i: nat) => exists a: nat :: a < EXECUTE_MAX_ATTEMPTS && accepts(i, a)
    }

    function Split(): nat -> bool {
      (n: nat) => exists a: nat :: a < BREAK_PAGE_MAX_ATTEMPTS && splits(n, a)
    }

    /** One command, tried again once. */
    method Execute(n: nat) returns (ok: bool)
      requires Valid()
      modifies this
      ensures Valid()
      ensures ok == Sent()(n) && log == old(log) + [Send(n)] && breaks == old(breaks)
      ensures ok <==> accepts(n, 0) || accepts(n, 1)
    {
      TotalGrows(log, Send(n));
      log := log + [Send(n)];
      ok := TryAll(accepts, n, EXECUTE_MAX_ATTEMPTS);
    }

    /** One page break: the address is resolved once, or the call raises; then the split
        is tried twice. */
    method BreakPage(key: string) returns (ok: Option<bool>)
      requires Valid()
      modifies this
      ensures Valid()
      ensures breaks == old(breaks) + 1
      ensures ok == if resolves(old(breaks)) then Some(Split()(old(breaks))) else None
      ensures ok.Some? ==> (ok.value <==> splits(old(breaks), 0) || splits(old(breaks), 1))
      ensures log == if ok.Some? then old(log) + [Break(key)] else old(log)
    {
      var n := breaks;
      breaks := breaks + 1;
      if !resolves(n) {
        return None;
      }
      TotalGrows(log, Break(key));
      log := log + [Break(key)];
      var split := TryAll(splits, n, BREAK_PAGE_MAX_ATTEMPTS);
      return Some(split);
    }
  }

  /** Up to `most` tries, until one succeeds. */
  method TryAll(tries: (nat, nat) -> bool, n: nat, most: nat) returns (ok: bool)
    ensures ok <==> exists a: nat :: a < most && tries(n, a)
  {
    var attempt := 0;
    while attempt < most
      invariant attempt <= most
      invariant forall a: nat :: a < attempt ==> !tries(n, a)
    {
      if tries(n, attempt) {
        return true;
      }
      attempt := attempt + 1;
    }
    return false;
  }

  datatype Score = Score(success: nat, failed: nat)

  /** The score of the page breaks from number `lo` to below `hi`. */
  predicate Scored(s: Score, split: nat -> bool, lo: nat, hi: nat) {
    lo <= hi && s.success == HowMany(split, lo, hi) && s.success + s.failed == hi - lo
  }

  /** Every page break from number `lo` to below `hi` found its key's address. */
  predicate AllResolve(resolves: nat -> bool, lo: nat, hi: nat) {
    forall n :: lo <= n < hi ==> resolves(n)
  }

  /** The access counters after the first `n` lines. */
  function CountsAt(lines: seq<Line>, sent: nat -> bool, n: nat): map<string, nat>
    requires n <= |lines|
  {
    if n == 0 then map[]
    else
      var counts, k := CountsAt(lines, sent, n - 1), KeyOf(lines[n - 1]);
      if k != "" && sent(n - 1) then counts[k := (if k in counts then counts[k] else 0) + 1] else counts
  }

  /** They hold, for each key, its successful commands so far. */
  lemma {:induction false} CountsAreDone(lines: seq<Line>, sent: nat -> bool, n: nat, k: string)
    requires n <= |lines| && k != ""
    ensures var counts := CountsAt(lines, sent, n);
            && (k in counts <==> Done(lines, sent, k, n) > 0)
            && (k in counts ==> counts[k] == Done(lines, sent, k, n))
  {
    if n == 0 {
    } else {
      CountsAreDone(lines, sent, n - 1, k);
    }
  }

  /** Successful commands with a key, among the first `n` lines. */
  function Keyed(lines: seq<Line>, sent: nat -> bool, n: nat): nat
    requires n <= |lines|
  {
    if n == 0 then 0 else Keyed(lines, sent, n - 1) + if KeyOf(lines[n - 1]) != "" && sent(n - 1) then 1 else 0
  }

  /** One page break, with its outcome added to the score. */
  method BreakAndScore(client: RedisClient, key: string, s: Score, ghost lo: nat) returns (r: Option<Score>)
    requires Scored(s, client.Split(), lo, client.breaks) && AllResolve(client.resolves, lo, client.breaks)
    requires client.Valid()
    modifies client
    ensures client.Valid()
    ensures client.breaks == old(client.breaks) + 1
    ensures r.Some? <==> AllResolve(client.resolves, lo, client.breaks)
    ensures r.Some? ==> Scored(r.value, client.Split(), lo, client.breaks)
    ensures client.log == if r.Some? then old(client.log) + [Break(key)] else old(client.log)
  {
    var ok := client.BreakPage(key);
    if ok.None? {
      return None;
    }
    return Some(if ok.value then s.(success := s.success + 1) else s.(failed := s.failed + 1));
  }

  lemma {:induction false} PreBreaksPrefix(b: Breakpoints, m: nat, n: nat)
    requires |b.keys| == |b.values| && m <= n <= |b.keys|
    ensures PreBreaks(b, m) <= PreBreaks(b, n)
  {
    if m < n {
      PreBreaksPrefix(b, m, n - 1);
    }
  }

  /** Column `n`, whose break follows those of the columns before it. */
  method BreakColumn(b: Breakpoints, n: nat, client: RedisClient, s: Score, ghost log: seq<Event>, ghost lo: nat)
    returns (r: Option<Score>)
    requires WellFormed(b) && n < |b.keys| && client.log == log + PreBreaks(b, n)
    requires Scored(s, client.Split(), lo, client.breaks) && AllResolve(client.resolves, lo, client.breaks)
    requires client.Valid()
    modifies client
    ensures client.Valid()
    ensures lo <= client.breaks && (r.Some? <==> AllResolve(client.resolves, lo, client.breaks))
    ensures r.Some? ==> Scored(r.value, client.Split(), lo, client.breaks)
    ensures r.Some? ==> client.log == log + PreBreaks(b, n + 1)
    ensures r.None? ==> log <= client.log <= log + PreBreaks(b, |b.keys|)
  {
    if b.values[n] != -1 {
      return Some(s);
    }
    r := BreakAndScore(client, b.keys[n], s, lo);
    if r.Some? {
      Appended(log, PreBreaks(b, n), [Break(b.keys[n])], client.log);
    } else {
      PreBreaksPrefix(b, n, |b.keys|);
    }
  }

  /** A key without an address stops it; what was broken by then is a first part. */
  method BreakBefore(b: Breakpoints, client: RedisClient) returns (bp: map<string, int>, s: Option<Score>)
    requires WellFormed(b)
    requires client.Valid()
    modifies client
    ensures client.Valid()
    ensures old(client.breaks) <= client.breaks
    ensures s.Some? <==> AllResolve(client.resolves, old(client.breaks), client.breaks)
    ensures s.Some? ==>
              && bp == AsMap(b, |b.keys|) && client.log == old(client.log) + PreBreaks(b, |b.keys|)
              && Scored(s.value, client.Split(), old(client.breaks), client.breaks)
    ensures s.None? ==> old(client.log) <= client.log <= old(client.log) + PreBreaks(b, |b.keys|)
  {
    bp := map[];
    var score := Score(0, 0);
    ghost var lo, log := client.breaks, client.log;
    var n := 0;
    while n < |b.keys|
      invariant 0 <= n <= |b.keys|
      invariant bp == AsMap(b, n) && client.log == log + PreBreaks(b, n)
      invariant Scored(score, client.Split(), lo, client.breaks) && AllResolve(client.resolves, lo, client.breaks)
      invariant client.Valid()
    {
      bp := bp[b.keys[n] := b.values[n]];
      var scored := BreakColumn(b, n, client, score, log, lo);
      if scored.None? {
        return bp, None;
      }
      score, n := scored.value, n + 1;
    }
    s := Some(score);
  }

  /** The events of line `i` alone. */
  function LineEvents(lines: seq<Line>, bp: map<string, int>, sent: nat -> bool, i: nat): seq<Event>
    requires i < |lines|
  {
    (if Due(lines, bp, sent, i) then [Break(KeyOf(lines[i]))] else [])
    + (if IsCommand(lines[i]) then [Send(i)] else [])
  }

  /** The counters after the first `i` lines: accesses by key, and successful commands
      with a key in all. */
  predicate Tallied(t: Tally, lines: seq<Line>, sent: nat -> bool, i: nat)
    requires i <= |lines|
  {
    t.counts == CountsAt(lines, sent, i) && t.total == Keyed(lines, sent, i)
  }

  datatype Tally = Tally(counts: map<string, nat>, total: nat, score: Score)

  /** One line of the trace: break if due, then send, then count a success.  None when
      the key to break has no address; then the line has sent nothing. */
  method ReplayLine(lines: seq<Line>, i: nat, bp: map<string, int>, client: RedisClient, t: Tally,
                    ghost sent: nat -> bool, ghost lo: nat)
    returns (u: Option<Tally>)
    requires i < |lines| && sent == client.Sent() && Tallied(t, lines, sent, i)
    requires Scored(t.score, client.Split(), lo, client.breaks) && AllResolve(client.resolves, lo, client.breaks)
    requires client.Valid()
    modifies client
    ensures client.Valid()
    ensures lo <= client.breaks && (u.Some? <==> AllResolve(client.resolves, lo, client.breaks))
    ensures client.log == if u.Some? then old(client.log) + LineEvents(lines, bp, sent, i) else old(client.log)
    ensures u.Some? ==> Scored(u.value.score, client.Split(), lo, client.breaks)
    ensures u.Some? ==> Tallied(u.value, lines, sent, i + 1)
  {
    ghost var log := client.log;
    TalliedNext(t, lines, sent, i);
    if !IsCommand(lines[i]) {
      return Some(t);
    }
    var score := BreakIfDue(lines, i, bp, client, t, sent, lo);
    if score.None? {
      return None;
    }
    var counts := SendAndCount(lines, i, client, sent);
    Appended(log, if Due(lines, bp, sent, i) then [Break(KeyOf(lines[i]))] else [], [Send(i)], client.log);
    if counts {
      var key := KeyOf(lines[i]);
      var done := if key in t.counts then t.counts[key] else 0;
      return Some(Tally(t.counts[key := done + 1], t.total + 1, score.value));
    }
    return Some(t.(score := score.value));
  }

  lemma TalliedNext(t: Tally, lines: seq<Line>, sent: nat -> bool, i: nat)
    requires i < |lines| && Tallied(t, lines, sent, i)
    ensures var key := KeyOf(lines[i]);
            var done := if key in t.counts then t.counts[key] else 0;
            Tallied(if sent(i) && key != "" then t.(counts := t.counts[key := done + 1], total := t.total + 1) else t,
                    lines, sent, i + 1)
  {
  }

  /** A page break when the line is the access its key breaks at. */
  method BreakIfDue(lines: seq<Line>, i: nat, bp: map<string, int>, client: RedisClient, t: Tally,
                    ghost sent: nat -> bool, ghost lo: nat)
    returns (score: Option<Score>)
    requires i < |lines| && sent == client.Sent() && Tallied(t, lines, sent, i)
    requires Scored(t.score, client.Split(), lo, client.breaks) && AllResolve(client.resolves, lo, client.breaks)
    requires client.Valid()
    modifies client
    ensures client.Valid()
    ensures lo <= client.breaks && (score.Some? <==> AllResolve(client.resolves, lo, client.breaks))
    ensures score.Some? ==> Scored(score.value, client.Split(), lo, client.breaks)
    ensures client.log
         == old(client.log) + if score.Some? && Due(lines, bp, sent, i) then [Break(KeyOf(lines[i]))] else []
  {
    var key := KeyOf(lines[i]);
    var done := if key in t.counts then t.counts[key] else 0;
    if key != "" {
      CountsAreDone(lines, sent, i, key);
    }
    if key != "" && key in bp && bp[key] != -1 && done == bp[key] {
      score := BreakAndScore(client, key, t.score, lo);
    } else {
      score := Some(t.score);
    }
  }

  /** The command of line `i`; it counts when it succeeds and has a key. */
  method SendAndCount(lines: seq<Line>, i: nat, client: RedisClient, ghost sent: nat -> bool) returns (counts: bool)
    requires i < |lines| && sent == client.Sent() && client.Valid()
    modifies client
    ensures client.Valid() && client.breaks == old(client.breaks) && client.log == old(client.log) + [Send(i)]
    ensures counts <==> sent(i) && KeyOf(lines[i]) != ""
  {
    var ok := client.Execute(i);
    counts := ok && KeyOf(lines[i]) != "";
  }

  lemma {:induction false} TracePrefix(lines: seq<Line>, bp: map<string, int>, sent: nat -> bool, m: nat, n: nat)
    requires m <= n <= |lines|
    ensures TraceEvents(lines, bp, sent, m) <= TraceEvents(lines, bp, sent, n)
  {
    if m < n {
      TracePrefix(lines, bp, sent, m, n - 1);
      TracePrefixStep(lines, bp, sent, n, TraceEvents(lines, bp, sent, m));
    }
  }

  lemma TracePrefixStep(lines: seq<Line>, bp: map<string, int>, sent: nat -> bool, n: nat, a: seq<Event>)
    requires 0 < n <= |lines| && a <= TraceEvents(lines, bp, sent, n - 1)
    ensures a <= TraceEvents(lines, bp, sent, n)
  {
    TraceJoins(lines, bp, sent, n);
    Extends(a, TraceEvents(lines, bp, sent, n - 1), TraceEvents(lines, bp, sent, n),
            LineEvents(lines, bp, sent, n - 1));
  }

  lemma Extends(a: seq<Event>, b: seq<Event>, c: seq<Event>, more: seq<Event>)
    requires a <= b && c == b + more
    ensures a <= c
  {
  }

  /** The log holds a first part of what the trace calls for. */
  ghost predicate LogsPart(now: seq<Event>, log: seq<Event>, lines: seq<Line>, bp: map<string, int>,
                           sent: nat -> bool)
  {
    log <= now <= log + TraceEvents(lines, bp, sent, |lines|)
  }

  /** A line whose events follow those of the lines before it. */
  method ReplayNext(lines: seq<Line>, i: nat, bp: map<string, int>, client: RedisClient, t: Tally,
                    ghost sent: nat -> bool, ghost log: seq<Event>, ghost lo: nat)
    returns (u: Option<Tally>)
    requires i < |lines| && sent == client.Sent() && Tallied(t, lines, sent, i)
    requires client.log == log + TraceEvents(lines, bp, sent, i)
    requires Scored(t.score, client.Split(), lo, client.breaks) && AllResolve(client.resolves, lo, client.breaks)
    requires client.Valid()
    modifies client
    ensures client.Valid()
    ensures lo <= client.breaks && (u.Some? <==> AllResolve(client.resolves, lo, client.breaks))
    ensures u.Some? ==> client.log == log + TraceEvents(lines, bp, sent, i + 1)
    ensures u.Some? ==> Scored(u.value.score, client.Split(), lo, client.breaks)
    ensures u.Some? ==> Tallied(u.value, lines, sent, i + 1)
    ensures u.None? ==> LogsPart(client.log, log, lines, bp, sent)
  {
    u := ReplayLine(lines, i, bp, client, t, sent, lo);
    if u.Some? {
      Appended(log, TraceEvents(lines, bp, sent, i), LineEvents(lines, bp, sent, i), client.log);
    } else {
      TracePrefix(lines, bp, sent, i, |lines|);
    }
  }

  method ReplayTrace(lines: seq<Line>, bp: map<string, int>, client: RedisClient, score: Score,
                     ghost sent: nat -> bool, ghost log: seq<Event>, ghost lo: nat)
    returns (t: Option<Tally>)
    requires sent == client.Sent() && client.log == log + TraceEvents(lines, bp, sent, 0)
    requires Scored(score, client.Split(), lo, client.breaks) && AllResolve(client.resolves, lo, client.breaks)
    requires client.Valid()
    modifies client
    ensures client.Valid()
    ensures lo <= client.breaks && (t.Some? <==> AllResolve(client.resolves, lo, client.breaks))
    ensures t.Some? ==> client.log == log + TraceEvents(lines, bp, sent, |lines|)
    ensures t.Some? ==> Scored(t.value.score, client.Split(), lo, client.breaks)
    ensures t.Some? ==> Tallied(t.value, lines, sent, |lines|)
    ensures t.None? ==> LogsPart(client.log, log, lines, bp, sent)
  {
    var tally := Tally(map[], 0, score);
    var i := 0;
    while i < |lines|
      invariant 0 <= i <= |lines|
      invariant client.log == log + TraceEvents(lines, bp, sent, i)
      invariant Scored(tally.score, client.Split(), lo, client.breaks)
      invariant AllResolve(client.resolves, lo, client.breaks)
      invariant Tallied(tally, lines, sent, i) && client.Valid()
    {
      t := ReplayNext(lines, i, bp, client, tally, sent, log, lo);
      if t.None? {
        return;
      }
      tally, i := t.value, i + 1;
    }
    t := Some(tally);
  }

  lemma Appended(log: seq<Event>, before: seq<Event>, more: seq<Event>, after: seq<Event>)
    requires after == log + before + more
    ensures after == log + (before + more)
  {
  }

  /** The whole replay.  It raises exactly when a key to break has no address; the server
      has then seen a first part of the events. */
  method Replay(lines: seq<Line>, b: Breakpoints, client: RedisClient) returns (t: Option<Tally>)
    requires WellFormed(b)
    requires client.Valid()
    modifies client
    ensures client.Valid()
    ensures old(client.breaks) <= client.breaks
    ensures t.Some? <==> AllResolve(client.resolves, old(client.breaks), client.breaks)
    ensures t.Some? ==> client.log == old(client.log) + ReplayEvents(lines, b, client.Sent())
    ensures t.Some? ==> Scored(t.value.score, client.Split(), old(client.breaks), client.breaks)
    ensures t.Some? ==> Tallied(t.value, lines, client.Sent(), |lines|)
    ensures t.Some? ==>
              t.value.score.success + t.value.score.failed == TotalBreaks(ReplayEvents(lines, b, client.Sent()))
    ensures t.None? ==> old(client.log) <= client.log <= old(client.log) + ReplayEvents(lines, b, client.Sent())
  {
    ghost var sent, log, lo := client.Sent(), client.log, client.breaks;
    var bp, score := BreakBefore(b, client);
    ghost var pre := PreBreaks(b, |b.keys|);
    ghost var trace := TraceEvents(lines, AsMap(b, |b.keys|), sent, |lines|);
    if score.None? {
      PrefixOfAll(log, pre, trace, client.log);
      return None;
    }
    t := ReplayTrace(lines, bp, client, score.value, sent, client.log, lo);
    if t.Some? {
      Appended(log, pre, trace, client.log);
      AllOfThem(client.resolves, lo, client.breaks);
      TotalJoined(log, ReplayEvents(lines, b, sent));
    } else {
      PrefixOfMore(log, pre, trace, client.log);
    }
  }

  lemma PrefixOfAll(log: seq<Event>, pre: seq<Event>, trace: seq<Event>, now: seq<Event>)
    requires log <= now <= log + pre
    ensures log <= now <= log + (pre + trace)
  {
    assert log + (pre + trace) == log + pre + trace;
  }

  lemma PrefixOfMore(log: seq<Event>, pre: seq<Event>, trace: seq<Event>, now: seq<Event>)
    requires log + pre <= now <= log + pre + trace
    ensures log <= now <= log + (pre + trace)
  {
    assert log + (pre + trace) == log + pre + trace;
  }

  // ------------------------------------------------------- how often a key is broken

  function BreaksIn(events: seq<Event>, k: string): nat {
    Times(events, Break(k))
  }

  function Positions(events: seq<Event>, e: Event): set<nat> {
    set p: nat | p < |events| && events[p] == e
  }

  /** How often `e` is among the events. */
  function Times(events: seq<Event>, e: Event): nat {
    |Positions(events, e)|
  }

  lemma TimesGrows(events: seq<Event>, last: Event, e: Event)
    ensures Times(events + [last], e) == Times(events, e) + if last == e then 1 else 0
  {
    assert Positions(events + [last], e) == Positions(events, e) + if last == e then {|events|} else {};
  }

  lemma {:induction false} TimesJoined(a: seq<Event>, b: seq<Event>, all: seq<Event>, e: Event)
    requires all == a + b
    ensures Times(all, e) == Times(a, e) + Times(b, e)
    decreases |b|
  {
    if b == [] {
      assert all == a && Positions(b, e) == {};
    } else {
      var init, last := b[..|b| - 1], b[|b| - 1];
      TimesJoined(a, init, a + init, e);
      TimesGrows(a + init, last, e);
      TimesGrows(init, last, e);
      assert all == a + init + [last] && b == init + [last];
    }
  }

  lemma TimesOfOne(events: seq<Event>, e: Event)
    requires |events| <= 1
    ensures Times(events, e) == if events == [e] then 1 else 0
  {
    assert Positions(events, e) == if events == [e] then {0} else {};
  }

  lemma TimesOfTwo(a: seq<Event>, b: seq<Event>, all: seq<Event>, e: Event)
    requires |a| <= 1 && |b| <= 1 && all == a + b
    ensures Times(all, e) == (if a == [e] then 1 else 0) + if b == [e] then 1 else 0
  {
    TimesOfOne(a, e);
    TimesOfOne(b, e);
    TimesJoined(a, b, all, e);
  }

  /** A line's events are those after the ones of the lines before it. */
  lemma TraceJoins(lines: seq<Line>, bp: map<string, int>, sent: nat -> bool, n: nat)
    requires 0 < n <= |lines|
    ensures TraceEvents(lines, bp, sent, n) == TraceEvents(lines, bp, sent, n - 1) + LineEvents(lines, bp, sent, n - 1)
  {
  }

  lemma TimesOnTrace(lines: seq<Line>, bp: map<string, int>, sent: nat -> bool, n: nat, e: Event)
    requires 0 < n <= |lines|
    ensures Times(TraceEvents(lines, bp, sent, n), e)
         == Times(TraceEvents(lines, bp, sent, n - 1), e) + Times(LineEvents(lines, bp, sent, n - 1), e)
  {
    TraceJoins(lines, bp, sent, n);
    TimesJoined(TraceEvents(lines, bp, sent, n - 1), LineEvents(lines, bp, sent, n - 1),
                TraceEvents(lines, bp, sent, n), e);
  }

  /** Commands on `k` that failed while its count stood at `v`, among the first `n`
      lines. */
  function FailuresAt(lines: seq<Line>, sent: nat -> bool, k: string, v: int, n: nat): nat
    requires n <= |lines|
  {
    if n == 0 then 0
    else
      FailuresAt(lines, sent, k, v, n - 1)
      + if KeyOf(lines[n - 1]) == k && !sent(n - 1) && Done(lines, sent, k, n - 1) == v then 1 else 0
  }

  /** Lines of `k` that are due, among the first `n`. */
  function DueLines(lines: seq<Line>, bp: map<string, int>, sent: nat -> bool, k: string, n: nat): nat
    requires n <= |lines|
  {
    if n == 0 then 0
    else
      DueLines(lines, bp, sent, k, n - 1)
      + if Due(lines, bp, sent, n - 1) && KeyOf(lines[n - 1]) == k then 1 else 0
  }

  lemma {:induction false} BreaksAreDue(lines: seq<Line>, bp: map<string, int>, sent: nat -> bool, n: nat, k: string)
    requires n <= |lines|
    ensures BreaksIn(TraceEvents(lines, bp, sent, n), k) == DueLines(lines, bp, sent, k, n)
  {
    if n == 0 {
    } else {
      BreaksAreDue(lines, bp, sent, n - 1, k);
      TraceBreaksStep(lines, bp, sent, n, k);
    }
  }

  lemma {:induction false} DueIsTried(lines: seq<Line>, bp: map<string, int>, sent: nat -> bool, n: nat, k: string)
    requires n <= |lines| && k != "" && k in bp && bp[k] != -1
    ensures DueLines(lines, bp, sent, k, n)
         == FailuresAt(lines, sent, k, bp[k], n) + if 0 <= bp[k] < Done(lines, sent, k, n) then 1 else 0
  {
    if n == 0 {
    } else {
      DueIsTried(lines, bp, sent, n - 1, k);
    }
  }

  /** With any failures: a key is broken once per try of its access `v`. */
  lemma TraceBreaks(lines: seq<Line>, bp: map<string, int>, sent: nat -> bool, n: nat, k: string)
    requires n <= |lines| && k != "" && k in bp && bp[k] != -1
    ensures BreaksIn(TraceEvents(lines, bp, sent, n), k)
         == FailuresAt(lines, sent, k, bp[k], n) + if 0 <= bp[k] < Done(lines, sent, k, n) then 1 else 0
  {
    BreaksAreDue(lines, bp, sent, n, k);
    DueIsTried(lines, bp, sent, n, k);
  }

  lemma LineBreaks(lines: seq<Line>, bp: map<string, int>, sent: nat -> bool, i: nat, k: string)
    requires i < |lines|
    ensures BreaksIn(LineEvents(lines, bp, sent, i), k)
         == if Due(lines, bp, sent, i) && KeyOf(lines[i]) == k then 1 else 0
  {
    TimesOfTwo(if Due(lines, bp, sent, i) then [Break(KeyOf(lines[i]))] else [],
               if IsCommand(lines[i]) then [Send(i)] else [], LineEvents(lines, bp, sent, i), Break(k));
  }

  lemma TraceBreaksStep(lines: seq<Line>, bp: map<string, int>, sent: nat -> bool, n: nat, k: string)
    requires 0 < n <= |lines|
    ensures BreaksIn(TraceEvents(lines, bp, sent, n), k)
         == BreaksIn(TraceEvents(lines, bp, sent, n - 1), k)
            + if Due(lines, bp, sent, n - 1) && KeyOf(lines[n - 1]) == k then 1 else 0
  {
    LineBreaks(lines, bp, sent, n - 1, k);
    TimesOnTrace(lines, bp, sent, n, Break(k));
  }

  lemma {:induction false} NeverDue(lines: seq<Line>, bp: map<string, int>, sent: nat -> bool, n: nat, k: string)
    requires n <= |lines| && (k == "" || k !in bp || bp[k] == -1)
    ensures DueLines(lines, bp, sent, k, n) == 0
  {
    if n == 0 {
    } else {
      NeverDue(lines, bp, sent, n - 1, k);
    }
  }

  lemma {:induction false} AsMapAt(b: Breakpoints, n: nat, i: nat)
    requires WellFormed(b) && i < n <= |b.keys|
    ensures b.keys[i] in AsMap(b, n) && AsMap(b, n)[b.keys[i]] == b.values[i]
  {
    if i < n - 1 {
      AsMapAt(b, n - 1, i);
    }
  }

  lemma {:induction false} BrokenBefore(b: Breakpoints, n: nat, i: nat)
    requires WellFormed(b) && i < |b.keys| && n <= |b.keys|
    ensures BreaksIn(PreBreaks(b, n), b.keys[i]) == if i < n && b.values[i] == -1 then 1 else 0
  {
    if n == 0 {
    } else {
      BrokenBefore(b, n - 1, i);
      var last: seq<Event> := if b.values[n - 1] == -1 then [Break(b.keys[n - 1])] else [];
      TimesJoined(PreBreaks(b, n - 1), last, PreBreaks(b, n), Break(b.keys[i]));
      TimesOfOne(last, Break(b.keys[i]));
    }
  }

  /** All the events of a replay. */
  function ReplayEvents(lines: seq<Line>, b: Breakpoints, sent: nat -> bool): seq<Event>
    requires WellFormed(b)
  {
    PreBreaks(b, |b.keys|) + TraceEvents(lines, AsMap(b, |b.keys|), sent, |lines|)
  }

  /** How often column `i` is broken, whatever fails: once before the trace for -1;
      else once per failed command at its value, and once more if that access was
      made. */
  lemma ReplayBreaks(lines: seq<Line>, b: Breakpoints, sent: nat -> bool, i: nat)
    requires WellFormed(b) && i < |b.keys| && b.keys[i] != ""
    ensures var k, v, n := b.keys[i], b.values[i], |lines|;
            BreaksIn(ReplayEvents(lines, b, sent), k)
            == if v == -1 then 1
            else FailuresAt(lines, sent, k, v, n) + if 0 <= v < Done(lines, sent, k, n) then 1 else 0
  {
    var k, bp := b.keys[i], AsMap(b, |b.keys|);
    AsMapAt(b, |b.keys|, i);
    BrokenBefore(b, |b.keys|, i);
    TimesJoined(PreBreaks(b, |b.keys|), TraceEvents(lines, bp, sent, |lines|), ReplayEvents(lines, b, sent), Break(k));
    if b.values[i] == -1 {
      BreaksAreDue(lines, bp, sent, |lines|, k);
      NeverDue(lines, bp, sent, |lines|, k);
    } else {
      TraceBreaks(lines, bp, sent, |lines|, k);
    }
  }

  /** A column without a key is broken before the trace or never. */
  lemma NamelessColumn(lines: seq<Line>, b: Breakpoints, sent: nat -> bool, i: nat)
    requires WellFormed(b) && i < |b.keys| && b.keys[i] == ""
    ensures BreaksIn(ReplayEvents(lines, b, sent), "") == if b.values[i] == -1 then 1 else 0
  {
    var bp := AsMap(b, |b.keys|);
    BrokenBefore(b, |b.keys|, i);
    TimesJoined(PreBreaks(b, |b.keys|), TraceEvents(lines, bp, sent, |lines|), ReplayEvents(lines, b, sent), Break(""));
    BreaksAreDue(lines, bp, sent, |lines|, "");
    NeverDue(lines, bp, sent, |lines|, "");
  }

  lemma {:induction false} FaultFree(lines: seq<Line>, sent: nat -> bool, k: string, v: int, n: nat)
    requires n <= |lines| && forall i :: sent(i)
    ensures Done(lines, sent, k, n) == Accesses(lines, k, n) && FailuresAt(lines, sent, k, v, n) == 0
  {
    if n == 0 {
    } else {
      FaultFree(lines, sent, k, v, n - 1);
    }
  }

  /** The break of a key stands right before its access number `v`, counted from 0. */
  lemma DueAtAccess(lines: seq<Line>, b: Breakpoints, sent: nat -> bool, i: nat, n: nat)
    requires WellFormed(b) && i < |b.keys| && b.keys[i] != "" && n < |lines| && forall j :: sent(j)
    ensures Due(lines, AsMap(b, |b.keys|), sent, n) && KeyOf(lines[n]) == b.keys[i]
       <==> KeyOf(lines[n]) == b.keys[i] && b.values[i] >= 0 && Accesses(lines, b.keys[i], n) == b.values[i]
  {
    AsMapAt(b, |b.keys|, i);
    FaultFree(lines, sent, b.keys[i], 0, n);
  }

  // ------------------------------------------------------- which commands are sent

  lemma LineSends(lines: seq<Line>, bp: map<string, int>, sent: nat -> bool, n: nat, i: nat)
    requires n < |lines|
    ensures Times(LineEvents(lines, bp, sent, n), Send(i))
         == if i == n && lines[n].Monitor? && |lines[n].tokens| >= 1 then 1 else 0
  {
    TimesOfTwo(if Due(lines, bp, sent, n) then [Break(KeyOf(lines[n]))] else [],
               if IsCommand(lines[n]) then [Send(n)] else [], LineEvents(lines, bp, sent, n), Send(i));
  }

  lemma {:induction false} TraceSends(lines: seq<Line>, bp: map<string, int>, sent: nat -> bool, n: nat, i: nat)
    requires n <= |lines|
    ensures Times(TraceEvents(lines, bp, sent, n), Send(i))
         == if i < n && lines[i].Monitor? && |lines[i].tokens| >= 1 then 1 else 0
  {
    if n == 0 {
    } else {
      TraceSends(lines, bp, sent, n - 1, i);
      TraceSendsStep(lines, bp, sent, n, i);
    }
  }

  lemma TraceSendsStep(lines: seq<Line>, bp: map<string, int>, sent: nat -> bool, n: nat, i: nat)
    requires 0 < n <= |lines|
    ensures Times(TraceEvents(lines, bp, sent, n), Send(i))
         == Times(TraceEvents(lines, bp, sent, n - 1), Send(i))
            + if i == n - 1 && lines[n - 1].Monitor? && |lines[n - 1].tokens| >= 1 then 1 else 0
  {
    LineSends(lines, bp, sent, n - 1, i);
    TimesOnTrace(lines, bp, sent, n, Send(i));
  }

  /** Commands are in the order of their lines, all of them below `n`. */
  predicate SendsAscend(events: seq<Event>, n: nat) {
    && (forall p :: 0 <= p < |events| && events[p].Send? ==> events[p].line < n)
    && (forall p, q :: 0 <= p < q < |events| && events[p].Send? && events[q].Send? ==> events[p].line < events[q].line)
  }

  lemma SendsAscendNext(before: seq<Event>, last: seq<Event>, n: nat)
    requires SendsAscend(before, n)
    requires forall p :: 0 <= p < |last| && last[p].Send? ==> p == |last| - 1 && last[p].line == n
    ensures SendsAscend(before + last, n + 1)
  {
  }

  lemma {:induction false} TraceSendsAscend(lines: seq<Line>, bp: map<string, int>, sent: nat -> bool, n: nat)
    requires n <= |lines|
    ensures SendsAscend(TraceEvents(lines, bp, sent, n), n)
  {
    if n > 0 {
      TraceSendsAscend(lines, bp, sent, n - 1);
      SendsAscendNext(TraceEvents(lines, bp, sent, n - 1), LineEvents(lines, bp, sent, n - 1), n - 1);
    }
  }

  lemma {:induction false} BreaksOnly(b: Breakpoints, n: nat)
    requires |b.keys| == |b.values| && n <= |b.keys|
    ensures forall e :: e in PreBreaks(b, n) ==> e.Break?
  {
    if n == 0 {
    } else {
      BreaksOnly(b, n - 1);
    }
  }

  /** Whatever fails, a replay sends the command of every line that has one, exactly
      once. */
  lemma ReplaySendsOnce(lines: seq<Line>, b: Breakpoints, sent: nat -> bool, i: nat)
    requires WellFormed(b)
    ensures Times(ReplayEvents(lines, b, sent), Send(i))
         == if i < |lines| && lines[i].Monitor? && |lines[i].tokens| >= 1 then 1 else 0
  {
    var pre, bp := PreBreaks(b, |b.keys|), AsMap(b, |b.keys|);
    BreaksOnly(b, |b.keys|);
    assert Positions(pre, Send(i)) == {} by {
      assert forall p :: 0 <= p < |pre| ==> pre[p] in pre;
    }
    TraceSends(lines, bp, sent, |lines|, i);
    TimesJoined(pre, TraceEvents(lines, bp, sent, |lines|), ReplayEvents(lines, b, sent), Send(i));
  }

  lemma SendInTrace(b: Breakpoints, trace: seq<Event>, all: seq<Event>, p: nat)
    requires WellFormed(b) && all == PreBreaks(b, |b.keys|) + trace && p < |all| && all[p].Send?
    ensures |PreBreaks(b, |b.keys|)| <= p && all[p] == trace[p - |PreBreaks(b, |b.keys|)|]
  {
    BreaksOnly(b, |b.keys|);
    assert forall q: nat :: q < |PreBreaks(b, |b.keys|)| ==> PreBreaks(b, |b.keys|)[q].Break?;
  }

  /** And in the order of the lines. */
  lemma ReplaySendsInOrder(lines: seq<Line>, b: Breakpoints, sent: nat -> bool, p: nat, q: nat)
    requires WellFormed(b) && p < q < |ReplayEvents(lines, b, sent)|
    requires ReplayEvents(lines, b, sent)[p].Send? && ReplayEvents(lines, b, sent)[q].Send?
    ensures ReplayEvents(lines, b, sent)[p].line < ReplayEvents(lines, b, sent)[q].line
  {
    var n, bp := |PreBreaks(b, |b.keys|)|, AsMap(b, |b.keys|);
    var trace := TraceEvents(lines, bp, sent, |lines|);
    SendInTrace(b, trace, ReplayEvents(lines, b, sent), p);
    SendInTrace(b, trace, ReplayEvents(lines, b, sent), q);
    TraceSendsAscend(lines, bp, sent, |lines|);
    assert trace[p - n].line < trace[q - n].line;
  }

  // ------------------------------------------------------- where a key is broken

  /** A break in the trace is due at the line whose command comes right after it. */
  lemma {:induction false} BreakThenSend(lines: seq<Line>, bp: map<string, int>, sent: nat -> bool, n: nat, j: nat)
    returns (m: nat)
    requires n <= |lines| && j < |TraceEvents(lines, bp, sent, n)| && TraceEvents(lines, bp, sent, n)[j].Break?
    ensures m < n && Due(lines, bp, sent, m)
    ensures var events := TraceEvents(lines, bp, sent, n);
            events[j] == Break(KeyOf(lines[m])) && j + 1 < |events| && events[j + 1] == Send(m)
  {
    if j < |TraceEvents(lines, bp, sent, n - 1)| {
      m := BreakThenSend(lines, bp, sent, n - 1, j);
    } else {
      m := n - 1;
    }
  }

  /** Entry `j` of the events is followed by the command that is access number `v` of the
      key, counted from 0. */
  predicate PrecedesAccess(events: seq<Event>, j: nat, lines: seq<Line>, k: string, v: int) {
    && j + 1 < |events| && events[j + 1].Send?
    && var n := events[j + 1].line;
    n < |lines| && KeyOf(lines[n]) == k && Accesses(lines, k, n) == v
  }

  lemma AfterPre(pre: seq<Event>, trace: seq<Event>, e: Event, j: nat)
    requires Positions(pre, e) == {} && j < |pre + trace| && (pre + trace)[j] == e
    ensures j >= |pre| && trace[j - |pre|] == e
  {
    assert forall p: nat :: p < |pre| && pre[p] == e ==> p in Positions(pre, e);
  }

  /** Without failures, whatever breaks a key with value v >= 0 stands right before that
      key's access number v. */
  lemma BreakPrecedesAccess(lines: seq<Line>, b: Breakpoints, sent: nat -> bool, i: nat, j: nat)
    requires WellFormed(b) && i < |b.keys| && b.keys[i] != "" && b.values[i] >= 0 && forall m :: sent(m)
    requires j < |ReplayEvents(lines, b, sent)| && ReplayEvents(lines, b, sent)[j] == Break(b.keys[i])
    ensures PrecedesAccess(ReplayEvents(lines, b, sent), j, lines, b.keys[i], b.values[i])
  {
    var bp, pre := AsMap(b, |b.keys|), PreBreaks(b, |b.keys|);
    BrokenBefore(b, |b.keys|, i);
    var trace := TraceEvents(lines, bp, sent, |lines|);
    AfterPre(pre, trace, Break(b.keys[i]), j);
    var m := BreakThenSend(lines, bp, sent, |lines|, j - |pre|);
    DueAtAccess(lines, b, sent, i, m);
  }

  /** Replaying, without failures, any combination generated from the log's own counts:
      a key at -1 is broken once, before the trace; at 0 <= v < count once, right before
      access v; at v >= count never; and the replay counts what the log parser counted. */
  lemma GeneratedReplay(lines: seq<Line>, counts: map<string, nat>, b: Breakpoints, sent: nat -> bool, i: nat)
    requires CountsOf(counts, lines, |lines|) && WellFormed(b) && ValidCombo(counts, b.keys, b.values)
    requires i < |b.keys| && b.keys[i] in counts && forall j :: sent(j)
    ensures var k, v := b.keys[i], b.values[i];
            && BreaksIn(ReplayEvents(lines, b, sent), k) == (if v < counts[k] then 1 else 0)
            && BreaksIn(PreBreaks(b, |b.keys|), k) == (if v == -1 then 1 else 0)
            && Done(lines, sent, k, |lines|) == counts[k]
    ensures b.values[i] >= 0 ==>
              forall j :: 0 <= j < |ReplayEvents(lines, b, sent)| && ReplayEvents(lines, b, sent)[j] == Break(b.keys[i])
                          ==> PrecedesAccess(ReplayEvents(lines, b, sent), j, lines, b.keys[i], b.values[i])
  {
    forall j | 0 <= j < |ReplayEvents(lines, b, sent)| && b.values[i] >= 0
               && ReplayEvents(lines, b, sent)[j] == Break(b.keys[i])
      ensures PrecedesAccess(ReplayEvents(lines, b, sent), j, lines, b.keys[i], b.values[i])
    {
      BreakPrecedesAccess(lines, b, sent, i, j);
    }
    ReplayBreaks(lines, b, sent, i);
    BrokenBefore(b, |b.keys|, i);
    FaultFree(lines, sent, b.keys[i], b.values[i], |lines|);
  }

  /** With failures the key is broken exactly once if and only if its access was made
      without one failed try, or was tried once and failed for good. */
  lemma BrokenOnceIff(lines: seq<Line>, b: Breakpoints, sent: nat -> bool, i: nat)
    requires WellFormed(b) && i < |b.keys| && b.keys[i] != "" && b.values[i] >= 0
    ensures var k, v := b.keys[i], b.values[i];
            BreaksIn(ReplayEvents(lines, b, sent), k) == 1
            <==> FailuresAt(lines, sent, k, v, |lines|) == (if v < Done(lines, sent, k, |lines|) then 0 else 1)
  {
    ReplayBreaks(lines, b, sent, i);
  }

  lemma {:induction false} AsMapKeys(b: Breakpoints, n: nat, k: string)
    requires |b.keys| == |b.values| && n <= |b.keys| && k in AsMap(b, n)
    ensures k in b.keys
  {
    if k != b.keys[n - 1] {
      AsMapKeys(b, n - 1, k);
    }
  }

  lemma {:induction false} PreBreaksListed(b: Breakpoints, n: nat, k: string)
    requires |b.keys| == |b.values| && n <= |b.keys| && Break(k) in PreBreaks(b, n)
    ensures k in b.keys
  {
    if Break(k) in PreBreaks(b, n - 1) {
      PreBreaksListed(b, n - 1, k);
    }
  }

  /** Nothing else is broken: every break is of a key with a breakpoint column. */
  lemma BreaksAreListed(lines: seq<Line>, b: Breakpoints, sent: nat -> bool, k: string)
    requires WellFormed(b) && Break(k) in ReplayEvents(lines, b, sent)
    ensures k in b.keys
  {
    var bp, trace := AsMap(b, |b.keys|), TraceEvents(lines, AsMap(b, |b.keys|), sent, |lines|);
    if Break(k) in PreBreaks(b, |b.keys|) {
      PreBreaksListed(b, |b.keys|, k);
    } else {
      var j :| 0 <= j < |trace| && trace[j] == Break(k);
      var m := BreakThenSend(lines, bp, sent, |lines|, j);
      AsMapKeys(b, |b.keys|, k);
    }
  }

  const TWO_GETS := [Monitor(["GET", "user1"]), Monitor(["GET", "user1"])]
  const ALL_BUT_FIRST: nat -> bool := n => n != 0

  /** A key due at its first access is broken twice when the first command fails. */
  lemma FailedAccessBreaksTwice()
    ensures BreaksIn(ReplayEvents(TWO_GETS, Breakpoints(["user1"], [0]), ALL_BUT_FIRST), "user1") == 2
  {
    var lines, sent, k := TWO_GETS, ALL_BUT_FIRST, "user1";
    ReplayBreaks(lines, Breakpoints([k], [0]), sent, 0);
    assert KeyOf(lines[0]) == KeyOf(lines[1]) == k && !sent(0) && sent(1);
    assert Done(lines, sent, k, 0) == Done(lines, sent, k, 1) == 0 && Done(lines, sent, k, 2) == 1;
    assert FailuresAt(lines, sent, k, 0, 1) == 1 && FailuresAt(lines, sent, k, 0, 2) == 1;
  }
}
