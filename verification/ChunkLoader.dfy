/** Loading a run directory: chunk files are put in chunk order by name and their
    rows concatenated, table by table. */
module ChunkLoader {
  import opened Wrappers
  import Decimal

  const SUFFIX := "parquet"

  /** The pieces between dots, as `str.split(".")` gives them. */
  function SplitDots(s: string): (parts: seq<string>)
    ensures |parts| >= 1
  {
    if s == "" then [""]
    else
      var rest := SplitDots(s[1..]);
      if s[0] == '.' then [""] + rest else [[s[0]] + rest[0]] + rest[1..]
  }

  predicate NoDot(s: string) {
    '.' !in s
  }

  lemma {:induction false} SplitNoDot(s: string)
    requires NoDot(s)
    ensures SplitDots(s) == [s]
  {
    if s == "" {
    } else {
      SplitNoDot(s[1..]);
      assert s[0] in s && s == [s[0]] + s[1..];
    }
  }

  lemma {:induction false} SplitAtDot(a: string, b: string)
    requires NoDot(a)
    ensures SplitDots(a + "." + b) == [a] + SplitDots(b)
  {
    var s := a + "." + b;
    if a == "" {
      assert s[1..] == b;
    } else {
      assert s[1..] == a[1..] + "." + b;
      SplitAtDot(a[1..], b);
      assert a[0] in a && a == [a[0]] + a[1..];
    }
  }

  /** Where a file sorts: by chunk number, unnumbered names by name, "end" last. */
  datatype Key = Numbered(n: nat) | Named(name: string) | End

  function ChunkSortKey(name: string): Key {
    var parts := SplitDots(name);
    if |parts| >= 3 && parts[|parts| - 2] == "end" then End
    else if |parts| >= 3 && Decimal.AllDigits(parts[|parts| - 2]) then Numbered(Decimal.ToNat(parts[|parts| - 2]))
    else Named(name)
  }

  function TableName(name: string): string {
    SplitDots(name)[0]
  }

  /** The chunk a program run gives a file: a counter value, or the final "end". */
  datatype Chunk = Interval(n: nat) | Final

  function ChunkText(c: Chunk): string {
    match c
    case Interval(n) => Decimal.ToString(n)
    case Final => "end"
  }

  function FileName(table: string, c: Chunk): string {
    table + "." + (ChunkText(c) + "." + SUFFIX)
  }

  /** Reading a written name back gives its table and its place in chunk order. */
  lemma FileNameRoundTrip(table: string, c: Chunk)
    requires NoDot(table)
    ensures TableName(FileName(table, c)) == table
    ensures ChunkSortKey(FileName(table, c)) == if c.Final? then End else Numbered(c.n)
  {
    FileNameSplits(table, c);
    if c.Interval? {
      Decimal.RoundTrip(c.n);
    }
  }

  lemma FileNameSplits(table: string, c: Chunk)
    requires NoDot(table)
    ensures SplitDots(FileName(table, c)) == [table, ChunkText(c), SUFFIX]
  {
    SplitAtDot(table, ChunkText(c) + "." + SUFFIX);
    ChunkSplits(c, SUFFIX);
  }

  lemma ChunkSplits(c: Chunk, suffix: string)
    requires NoDot(suffix)
    ensures SplitDots(ChunkText(c) + "." + suffix) == [ChunkText(c), suffix]
  {
    ChunkHasNoDot(c);
    SplitAtDot(ChunkText(c), suffix);
    SplitNoDot(suffix);
  }

  lemma {:induction false} SplitLast(a: string, b: string)
    requires NoDot(b)
    ensures SplitDots(a + "." + b) == SplitDots(a) + [b]
  {
    var s := a + "." + b;
    if a == "" {
      assert s[1..] == b;
      SplitNoDot(b);
    } else {
      assert s[1..] == a[1..] + "." + b;
      SplitLast(a[1..], b);
    }
  }

  /** A file sorts by the piece before its suffix, if that is "end" or all digits, and by
      its whole name otherwise. */
  lemma SortKeyIs(pre: string, chunk: string, suffix: string)
    requires NoDot(chunk) && NoDot(suffix)
    ensures var name := pre + "." + chunk + "." + suffix;
            ChunkSortKey(name) == if chunk == "end" then End
            else if Decimal.AllDigits(chunk) then Numbered(Decimal.ToNat(chunk)) else Named(name)
  {
    SplitLast(pre + "." + chunk, suffix);
    SplitLast(pre, chunk);
  }

  /** So does one with fewer than two dots. */
  lemma ShortNameKey(a: string, b: string)
    requires NoDot(a) && NoDot(b)
    ensures ChunkSortKey(a) == Named(a) && ChunkSortKey(a + "." + b) == Named(a + "." + b)
  {
    SplitNoDot(a);
    SplitAtDot(a, b);
    SplitNoDot(b);
  }

  lemma ChunkHasNoDot(c: Chunk)
    ensures NoDot(ChunkText(c))
  {
    assert forall i :: 0 <= i < |ChunkText(c)| ==> ChunkText(c)[i] != '.';
  }

  // ------------------------------------------------------- sorting

  /** A sample, by its place in append order. */
  type Sample = nat

  datatype File = File(name: string, rows: seq<Sample>)

  /** A file with its sort key, as the sort sees it. */
  datatype Entry = Entry(key: Key, file: File)

  /** Key order.  A numbered key and a named one cannot be compared. */
  predicate Less(a: Key, b: Key) {
    if a.End? then false
    else if b.End? then true
    else if a.Numbered? && b.Numbered? then a.n < b.n
    else a.Named? && b.Named? && LexLess(a.name, b.name)
  }

  predicate LexLess(a: string, b: string) {
    b != "" && (a == "" || a[0] < b[0] || (a[0] == b[0] && LexLess(a[1..], b[1..])))
  }

  /** Stable insertion by key. */
  function Insert(sorted: seq<Entry>, e: Entry): (r: seq<Entry>)
    ensures multiset(r) == multiset(sorted) + multiset{e}
  {
    if sorted == [] then [e]
    else
      var last := sorted[|sorted| - 1];
      assert sorted == sorted[..|sorted| - 1] + [last];
      if Less(e.key, last.key) then Insert(sorted[..|sorted| - 1], e) + [last] else sorted + [e]
  }

  function SortedByKey(entries: seq<Entry>): (r: seq<Entry>)
    ensures multiset(r) == multiset(entries)
  {
    if entries == [] then []
    else
      assert entries == entries[..|entries| - 1] + [entries[|entries| - 1]];
      Insert(SortedByKey(entries[..|entries| - 1]), entries[|entries| - 1])
  }

  predicate Ordered(entries: seq<Entry>) {
    forall i, j :: 0 <= i < j < |entries| ==> !Less(entries[j].key, entries[i].key)
  }

  /** Only names of written chunk files: a number or "end" before the suffix. */
  predicate Chunked(entries: seq<Entry>) {
    forall e :: e in entries ==> !e.key.Named?
  }

  /** Some pair of keys cannot be compared, so sorting raises. */
  predicate Mixed(entries: seq<Entry>) {
    exists a, b :: a in entries && b in entries && a.key.Numbered? && b.key.Named?
  }

  /** Names are compared at the first place they differ, and a prefix comes first. */
  lemma {:induction false} LexLessIff(a: string, b: string)
    ensures LexLess(a, b)
       <==> exists i :: 0 <= i <= |a| && i < |b| && a[..i] == b[..i] && (i == |a| || a[i] < b[i])
  {
    if a != "" && b != "" && a[0] == b[0] {
      LexLessIff(a[1..], b[1..]);
      if i :| 0 <= i <= |a| && i < |b| && a[..i] == b[..i] && (i == |a| || a[i] < b[i]) {
        assert i > 0 && a[1..][..i - 1] == a[..i][1..] == b[..i][1..] == b[1..][..i - 1];
      }
      if i :| 0 <= i <= |a| - 1 && i < |b| - 1 && a[1..][..i] == b[1..][..i] && (i == |a| - 1 || a[i + 1] < b[i + 1]) {
        assert a[..i + 1] == [a[0]] + a[1..][..i] == [b[0]] + b[1..][..i] == b[..i + 1];
      }
    } else if a != "" && b != "" {
      forall i | 0 < i <= |a| && i < |b|
        ensures a[..i] != b[..i]
      {
        assert a[..i][0] == a[0] && b[..i][0] == b[0];
      }
    }
    if a == "" && b != "" {
      assert a[..0] == b[..0];
    }
  }

  lemma {:induction false} LexFollows(a: string, b: string, c: string)
    requires !LexLess(a, b) && !LexLess(b, c)
    ensures !LexLess(a, c)
  {
    if a != "" && b != "" && c != "" && a[0] == b[0] == c[0] {
      LexFollows(a[1..], b[1..], c[1..]);
    }
  }

  lemma {:induction false} LexOneWay(a: string, b: string)
    ensures !(LexLess(a, b) && LexLess(b, a))
  {
    if a != "" && b != "" {
      LexOneWay(a[1..], b[1..]);
    }
  }

  lemma NotLessFollows(a: Key, b: Key, c: Key)
    requires !Less(a, b) && !Less(b, c)
    requires (a.Named? || b.Named? || c.Named?) ==> !a.Numbered? && !b.Numbered? && !c.Numbered?
    ensures !Less(a, c)
  {
    if a.Named? && b.Named? && c.Named? {
      LexFollows(a.name, b.name, c.name);
    }
  }

  lemma LessOneWay(a: Key, b: Key)
    requires Less(a, b)
    ensures !Less(b, a)
  {
    if a.Named? && b.Named? {
      LexOneWay(a.name, b.name);
    }
  }

  lemma OrderedSnoc(entries: seq<Entry>, e: Entry)
    requires Ordered(entries) && forall x :: x in entries ==> !Less(e.key, x.key)
    ensures Ordered(entries + [e])
  {
  }

  lemma InsertedFrom(sorted: seq<Entry>, e: Entry, x: Entry)
    requires x in Insert(sorted, e)
    ensures x in sorted || x == e
  {
    assert x in multiset(Insert(sorted, e));
  }

  lemma {:induction false} InsertOrdered(sorted: seq<Entry>, e: Entry)
    requires Ordered(sorted) && !Mixed(sorted + [e])
    ensures Ordered(Insert(sorted, e))
  {
    if sorted == [] {
    } else {
      var init, last := sorted[..|sorted| - 1], sorted[|sorted| - 1];
      assert last in sorted && e in sorted + [e];
      if Less(e.key, last.key) {
        assert forall x :: x in init + [e] ==> x in sorted + [e];
        InsertOrdered(init, e);
        forall x | x in Insert(init, e)
          ensures !Less(last.key, x.key)
        {
          InsertedFrom(init, e, x);
          LessOneWay(e.key, last.key);
        }
        OrderedSnoc(Insert(init, e), last);
      } else {
        forall i | 0 <= i < |sorted|
          ensures !Less(e.key, sorted[i].key)
        {
          assert sorted[i] in sorted + [e] && last in sorted + [e];
          if i < |sorted| - 1 {
            NotLessFollows(e.key, last.key, sorted[i].key);
          }
        }
        OrderedSnoc(sorted, e);
      }
    }
  }

  /** Sorting puts any files whose names can be compared in order. */
  lemma {:induction false} SortedIsOrdered(entries: seq<Entry>)
    requires !Mixed(entries)
    ensures Ordered(SortedByKey(entries))
  {
    if entries == [] {
    } else {
      var init, last := entries[..|entries| - 1], entries[|entries| - 1];
      assert last in entries && forall x :: x in init ==> x in entries;
      SortedIsOrdered(init);
      forall x | x in SortedByKey(init) + [last]
        ensures x in entries
      {
        assert x in multiset(SortedByKey(init)) || x == last;
      }
      InsertOrdered(SortedByKey(init), last);
    }
  }

  predicate Distinct(entries: seq<Entry>) {
    forall i, j :: 0 <= i < j < |entries| ==> entries[i].file.name != entries[j].file.name
  }

  lemma {:induction false} InsertDistinct(sorted: seq<Entry>, e: Entry)
    requires Distinct(sorted) && forall x :: x in sorted ==> x.file.name != e.file.name
    ensures Distinct(Insert(sorted, e))
  {
    if sorted == [] {
    } else {
      var init, last := sorted[..|sorted| - 1], sorted[|sorted| - 1];
      assert last in sorted && forall x :: x in init ==> x in sorted;
      if Less(e.key, last.key) {
        InsertDistinct(init, e);
        var r := Insert(init, e);
        forall i | 0 <= i < |r|
          ensures r[i].file.name != last.file.name
        {
          assert r[i] in multiset(r);
          assert r[i] in init || r[i] == e;
        }
      }
    }
  }

  lemma {:induction false} SortedIsDistinct(entries: seq<Entry>)
    requires Distinct(entries)
    ensures Distinct(SortedByKey(entries))
  {
    if entries == [] {
    } else {
      var init, last := entries[..|entries| - 1], entries[|entries| - 1];
      SortedIsDistinct(init);
      forall x | x in SortedByKey(init)
        ensures x in init
      {
        assert x in multiset(SortedByKey(init));
        assert x in multiset(init);
      }
      InsertDistinct(SortedByKey(init), last);
    }
  }

  // ------------------------------------------------------- loading

  function EntryOf(f: File): Entry {
    Entry(ChunkSortKey(f.name), f)
  }

  function EntriesOf(files: seq<File>): (r: seq<Entry>)
    ensures |r| == |files| && forall i :: 0 <= i < |r| ==> r[i] == EntryOf(files[i])
  {
    seq(|files|, i requires 0 <= i < |files| => EntryOf(files[i]))
  }

  function OfTable(entries: seq<Entry>, table: string): (r: seq<Entry>)
    ensures forall e :: e in r <==> e in entries && TableName(e.file.name) == table
  {
    if entries == [] then []
    else
      var last := entries[|entries| - 1];
      assert entries == entries[..|entries| - 1] + [last];
      OfTable(entries[..|entries| - 1], table) + if TableName(last.file.name) == table then [last] else []
  }

  function RowsOf(entries: seq<Entry>): seq<Sample> {
    if entries == [] then [] else RowsOf(entries[..|entries| - 1]) + entries[|entries| - 1].file.rows
  }

  datatype LoadError = TypeError

  method LoadRunDir(files: seq<File>, types: set<string>) returns (r: Result<map<string, seq<Sample>>, LoadError>)
    ensures r.Err? <==> Mixed(EntriesOf(files))
    ensures r.Ok? ==> forall t :: t in r.value <==> t in types && OfTable(SortedByKey(EntriesOf(files)), t) != []
    ensures r.Ok? ==> forall t :: t in r.value ==> r.value[t] == RowsOf(OfTable(SortedByKey(EntriesOf(files)), t))
  {
    var entries := EntriesOf(files);
    if Mixed(entries) {
      return Err(TypeError);
    }
    var sorted := SortedByKey(entries);
    var grouped := GroupByTable(sorted, types);
    var tables: map<string, seq<Sample>> := map[];
    var rest := grouped.Keys;
    while rest != {}
      invariant tables.Keys == grouped.Keys - rest && rest <= grouped.Keys
      invariant forall t :: t in tables ==> tables[t] == RowsOf(OfTable(sorted, t))
      decreases rest
    {
      var t :| t in rest;
      rest := rest - {t};
      var rows := ConcatRows(grouped[t]);
      tables := tables[t := rows];
    }
    return Ok(tables);
  }

  ghost predicate Groups(grouped: map<string, seq<Entry>>, entries: seq<Entry>, types: set<string>) {
    && (forall t :: t in grouped <==> t in types && OfTable(entries, t) != [])
    && (forall t :: t in grouped ==> grouped[t] == OfTable(entries, t))
  }

  lemma OfTableNext(entries: seq<Entry>, e: Entry, table: string)
    ensures OfTable(entries + [e], table)
         == OfTable(entries, table) + if TableName(e.file.name) == table then [e] else []
  {
    assert (entries + [e])[..|entries|] == entries;
  }

  lemma GroupsNext(grouped: map<string, seq<Entry>>, entries: seq<Entry>, types: set<string>, e: Entry)
    requires Groups(grouped, entries, types)
    ensures var table := TableName(e.file.name);
            Groups(if table in types
                   then grouped[table := (if table in grouped then grouped[table] else []) + [e]] else grouped,
                   entries + [e], types)
  {
    forall t
      ensures OfTable(entries + [e], t) == OfTable(entries, t) + if TableName(e.file.name) == t then [e] else []
    {
      OfTableNext(entries, e, t);
    }
  }

  method GroupByTable(sorted: seq<Entry>, types: set<string>) returns (grouped: map<string, seq<Entry>>)
    ensures forall t :: t in grouped <==> t in types && OfTable(sorted, t) != []
    ensures forall t :: t in grouped ==> grouped[t] == OfTable(sorted, t)
  {
    grouped := map[];
    for i := 0 to |sorted|
      invariant Groups(grouped, sorted[..i], types)
    {
      assert sorted[..i + 1] == sorted[..i] + [sorted[i]];
      GroupsNext(grouped, sorted[..i], types, sorted[i]);
      var table := TableName(sorted[i].file.name);
      if table in types {
        grouped := grouped[table := (if table in grouped then grouped[table] else []) + [sorted[i]]];
      }
    }
    assert sorted[..|sorted|] == sorted;
  }

  method ConcatRows(entries: seq<Entry>) returns (rows: seq<Sample>)
    ensures rows == RowsOf(entries)
  {
    rows := [];
    for i := 0 to |entries|
      invariant rows == RowsOf(entries[..i])
    {
      assert entries[..i + 1][..i] == entries[..i];
      rows := rows + entries[i].file.rows;
    }
    assert entries[..|entries|] == entries;
  }

  /** The chunks below number `n`, in order. */
  function Cat(chunks: map<nat, seq<Sample>>, n: nat): seq<Sample> {
    if n == 0 then [] else Cat(chunks, n - 1) + if n - 1 in chunks then chunks[n - 1] else []
  }

  lemma {:induction false} CatCut(chunks: map<nat, seq<Sample>>, k: nat, n: nat)
    requires k < n && k in chunks && forall m :: m in chunks ==> m <= k
    ensures Cat(chunks, n) == Cat(chunks - {k}, k) + chunks[k]
  {
    if n == k + 1 {
      CatSame(chunks, chunks - {k}, k);
    } else {
      CatCut(chunks, k, n - 1);
    }
  }

  lemma {:induction false} CatSame(a: map<nat, seq<Sample>>, b: map<nat, seq<Sample>>, n: nat)
    requires forall m :: m < n ==> (m in a <==> m in b) && (m in a ==> a[m] == b[m])
    ensures Cat(a, n) == Cat(b, n)
  {
    if n == 0 {
    } else {
      CatSame(a, b, n - 1);
    }
  }

  function FinalRows(end: Option<seq<Sample>>): seq<Sample> {
    if end.Some? then end.value else []
  }

  /** `entries` are the written chunks, each once, in key order. */
  ghost predicate InChunkOrder(entries: seq<Entry>, chunks: map<nat, seq<Sample>>, end: Option<seq<Sample>>) {
    && (forall i, j :: 0 <= i < j < |entries| ==> Less(entries[i].key, entries[j].key))
    && (forall e :: e in entries ==> if e.key.End? then end == Some(e.file.rows)
                      else e.key.Numbered? && e.key.n in chunks && chunks[e.key.n] == e.file.rows)
    && (forall n :: n in chunks ==> exists e :: e in entries && e.key == Numbered(n))
    && (end.Some? ==> exists e :: e in entries && e.key == End)
  }

  /** Keys strictly before the last one. */
  lemma BeforeLast(entries: seq<Entry>, chunks: map<nat, seq<Sample>>, end: Option<seq<Sample>>, e: Entry)
    requires InChunkOrder(entries, chunks, end) && e in entries
    ensures e == entries[|entries| - 1] || (e in entries[..|entries| - 1] && Less(e.key, entries[|entries| - 1].key))
  {
    var i :| 0 <= i < |entries| && entries[i] == e;
    if i < |entries| - 1 {
      assert entries[..|entries| - 1][i] == e;
    }
  }

  lemma DropEnd(entries: seq<Entry>, chunks: map<nat, seq<Sample>>, end: Option<seq<Sample>>)
    requires InChunkOrder(entries, chunks, end) && entries != [] && entries[|entries| - 1].key.End?
    ensures InChunkOrder(entries[..|entries| - 1], chunks, None) && end == Some(entries[|entries| - 1].file.rows)
  {
    var init, last := entries[..|entries| - 1], entries[|entries| - 1];
    assert last in entries;
    forall i | 0 <= i < |init|
      ensures init[i] in entries && !init[i].key.End?
    {
      assert Less(entries[i].key, last.key);
      assert entries[i] in entries;
    }
    forall n | n in chunks
      ensures exists e :: e in init && e.key == Numbered(n)
    {
      var e :| e in entries && e.key == Numbered(n);
      BeforeLast(entries, chunks, end, e);
    }
  }

  lemma DropNumbered(entries: seq<Entry>, chunks: map<nat, seq<Sample>>, end: Option<seq<Sample>>)
    requires InChunkOrder(entries, chunks, end) && entries != [] && !entries[|entries| - 1].key.End?
    ensures var last := entries[|entries| - 1];
            && last.key.Numbered? && last.key.n in chunks && chunks[last.key.n] == last.file.rows && end.None?
            && InChunkOrder(entries[..|entries| - 1], chunks - {last.key.n}, end)
            && forall m :: m in chunks ==> m <= last.key.n
  {
    var init, last := entries[..|entries| - 1], entries[|entries| - 1];
    assert last in entries;
    if end.Some? {
      var e :| e in entries && e.key == End;
      BeforeLast(entries, chunks, end, e);
    }
    forall i | 0 <= i < |init|
      ensures init[i] in entries && init[i].key != last.key
    {
      assert Less(entries[i].key, last.key);
      assert entries[i] in entries;
    }
    forall m | m in chunks
      ensures m <= last.key.n && (m != last.key.n ==> exists e :: e in init && e.key == Numbered(m))
    {
      var e :| e in entries && e.key == Numbered(m);
      BeforeLast(entries, chunks, end, e);
    }
  }

  lemma {:induction false} OrderedRows(entries: seq<Entry>, chunks: map<nat, seq<Sample>>, end: Option<seq<Sample>>,
                                       n: nat)
    requires InChunkOrder(entries, chunks, end) && forall m :: m in chunks ==> m < n
    ensures RowsOf(entries) == Cat(chunks, n) + FinalRows(end)
  {
    if entries == [] {
      CatSame(chunks, map[], n);
      CatEmpty(n);
    } else {
      var init, last := entries[..|entries| - 1], entries[|entries| - 1];
      assert RowsOf(entries) == RowsOf(init) + last.file.rows;
      if last.key.End? {
        DropEnd(entries, chunks, end);
        OrderedRows(init, chunks, None, n);
        assert Cat(chunks, n) + [] == Cat(chunks, n);
      } else {
        DropNumbered(entries, chunks, end);
        var k := last.key.n;
        OrderedRows(init, chunks - {k}, None, k);
        CatCut(chunks, k, n);
        assert Cat(chunks - {k}, k) + [] == Cat(chunks - {k}, k);
        assert Cat(chunks, n) + [] == Cat(chunks, n);
      }
    }
  }

  lemma {:induction false} CatEmpty(n: nat)
    ensures Cat(map[], n) == []
  {
    if n == 0 {
    } else {
      CatEmpty(n - 1);
    }
  }

  /** A directory holding the written chunks of `table`, each once, listed in any
      order among the chunk files of other tables. */
  ghost predicate Listing(files: seq<File>, table: string, chunks: map<nat, seq<Sample>>, end: Option<seq<Sample>>) {
    && NoDot(table) && Chunked(EntriesOf(files)) && Distinct(EntriesOf(files))
    && (forall f :: f in files && TableName(f.name) == table ==>
                      || (end.Some? && f == File(FileName(table, Final), end.value))
                      || (exists n :: n in chunks && f == File(FileName(table, Interval(n)), chunks[n])))
    && (forall n :: n in chunks ==> File(FileName(table, Interval(n)), chunks[n]) in files)
    && (end.Some? ==> File(FileName(table, Final), end.value) in files)
  }

  /** Two entries of one table with the same key are the same file. */
  lemma SameKeySameFile(files: seq<File>, table: string, chunks: map<nat, seq<Sample>>, end: Option<seq<Sample>>,
                        a: File, b: File)
    requires Listing(files, table, chunks, end) && a in files && b in files
    requires TableName(a.name) == table && TableName(b.name) == table
    ensures ChunkSortKey(a.name) == ChunkSortKey(b.name) ==> a == b
    ensures var k := ChunkSortKey(a.name);
            if k.End? then end == Some(a.rows) else k.Numbered? && k.n in chunks && chunks[k.n] == a.rows
  {
    forall f | f in files && TableName(f.name) == table
      ensures ChunkSortKey(f.name) == End ==> end.Some? && f == File(FileName(table, Final), end.value)
      ensures ChunkSortKey(f.name) != End ==>
                exists n :: n in chunks && f == File(FileName(table, Interval(n)), chunks[n])
                            && ChunkSortKey(f.name) == Numbered(n)
    {
      FileNameRoundTrip(table, Final);
      if n :| n in chunks && f == File(FileName(table, Interval(n)), chunks[n]) {
        FileNameRoundTrip(table, Interval(n));
      }
    }
  }

  lemma {:induction false} OfTableKeeps(entries: seq<Entry>, table: string)
    requires Ordered(entries) && Distinct(entries)
    ensures Ordered(OfTable(entries, table)) && Distinct(OfTable(entries, table))
  {
    if entries == [] {
    } else {
      var init, last := entries[..|entries| - 1], entries[|entries| - 1];
      OfTableKeeps(init, table);
      var r := OfTable(init, table);
      forall i | 0 <= i < |r|
        ensures !Less(last.key, r[i].key) && last.file.name != r[i].file.name
      {
        assert r[i] in init;
      }
    }
  }

  lemma SortedHoldsFiles(files: seq<File>, sorted: seq<Entry>)
    requires multiset(sorted) == multiset(EntriesOf(files))
    ensures forall e :: e in sorted ==> e == EntryOf(e.file) && e.file in files
    ensures forall f :: f in files ==> EntryOf(f) in sorted
  {
    var all := EntriesOf(files);
    forall e | e in sorted
      ensures e == EntryOf(e.file) && e.file in files
    {
      assert e in multiset(all);
      var i :| 0 <= i < |all| && all[i] == e;
      assert files[i] in files;
    }
    forall f | f in files
      ensures EntryOf(f) in sorted
    {
      var i :| 0 <= i < |files| && files[i] == f;
      assert all[i] in multiset(sorted);
    }
  }

  /** In any listing of the run directory a table's rows come back in chunk order. */
  lemma LoadIsChunkOrder(files: seq<File>, table: string, chunks: map<nat, seq<Sample>>, end: Option<seq<Sample>>,
                         n: nat)
    requires Listing(files, table, chunks, end) && forall m :: m in chunks ==> m < n
    ensures RowsOf(OfTable(SortedByKey(EntriesOf(files)), table)) == Cat(chunks, n) + FinalRows(end)
    ensures !Mixed(EntriesOf(files))
  {
    var all := EntriesOf(files);
    var sorted := SortedByKey(all);
    SortedIsOrdered(all);
    SortedIsDistinct(all);
    OfTableKeeps(sorted, table);
    SortedHoldsFiles(files, sorted);
    ListedInOrder(files, table, chunks, end, OfTable(sorted, table));
    OrderedRows(OfTable(sorted, table), chunks, end, n);
  }

  lemma ListedInOrder(files: seq<File>, table: string, chunks: map<nat, seq<Sample>>, end: Option<seq<Sample>>,
                      entries: seq<Entry>)
    requires Listing(files, table, chunks, end) && Ordered(entries) && Distinct(entries)
    requires forall e :: e in entries ==> e == EntryOf(e.file) && e.file in files && TableName(e.file.name) == table
    requires forall f :: f in files && TableName(f.name) == table ==> EntryOf(f) in entries
    ensures InChunkOrder(entries, chunks, end)
  {
    forall i, j | 0 <= i < j < |entries|
      ensures Less(entries[i].key, entries[j].key)
    {
      assert entries[i] in entries && entries[j] in entries;
      SameKeySameFile(files, table, chunks, end, entries[i].file, entries[j].file);
      SameKeySameFile(files, table, chunks, end, entries[j].file, entries[i].file);
    }
    forall e | e in entries
      ensures if e.key.End? then end == Some(e.file.rows)
              else e.key.Numbered? && e.key.n in chunks && chunks[e.key.n] == e.file.rows
    {
      SameKeySameFile(files, table, chunks, end, e.file, e.file);
    }
    forall n | n in chunks
      ensures exists e :: e in entries && e.key == Numbered(n)
    {
      FileNameRoundTrip(table, Interval(n));
      assert EntryOf(File(FileName(table, Interval(n)), chunks[n])) in entries;
    }
    if end.Some? {
      FileNameRoundTrip(table, Final);
      assert EntryOf(File(FileName(table, Final), end.value)) in entries;
    }
  }
}
