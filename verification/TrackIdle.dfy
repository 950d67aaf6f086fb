/** The stand-alone idle-access poller.  Runs of consecutive bitmap words are
    moved by one system call each. */
module TrackIdle {
  import opened Sums
  import opened IdleBitmap
  import opened IdleMarking

  /** The end of the run of consecutive values that starts at `i`. */
  method RunEnd(s: seq<nat>, i: nat) returns (j: nat)
    requires i < |s|
    ensures i <= j < |s|
    ensures Consecutive(s[i..j + 1])
    ensures j + 1 < |s| ==> s[j + 1] != s[j] + 1
  {
    j := i;
    while j + 1 < |s| && s[j + 1] == s[j] + 1
      invariant i <= j < |s|
      invariant forall k :: i <= k <= j ==> s[k] == s[i] + (k - i)
    {
      j := j + 1;
    }
  }

  method MaskByWord(pfns: seq<Pfn>) returns (wordToMask: map<nat, Word>)
    ensures Masks(wordToMask, pfns)
  {
    wordToMask := map[];
    for n := 0 to |pfns|
      invariant Masks(wordToMask, pfns[..n])
    {
      AddMaskKeepsMasks(wordToMask, pfns[..n], pfns[n]);
      assert pfns[..n + 1] == pfns[..n] + [pfns[n]];
      wordToMask := AddMask(wordToMask, pfns[n]);
    }
    assert pfns[..|pfns|] == pfns;
  }

  /** One system call for the run of words `run`; a failed or short one leaves words of
      the run unwritten. */
  method MarkRun(idle: IdleFile, run: seq<nat>, wordToMask: map<nat, Word>, ghost pfns: seq<Pfn>)
    returns (ghost wrote: seq<nat>)
    requires Consecutive(run) && Masks(wordToMask, pfns)
    requires forall k :: 0 <= k < |run| ==> run[k] in wordToMask
    modifies idle
    ensures idle.written == old(idle.written) + wrote
    ensures WroteOnly(old(idle.words), idle.words, pfns, wrote)
    ensures forall wi :: wi in wrote ==> wi in run
    ensures old(idle.NoFaults()) ==>
              idle.NoFaults() && forall wi :: wi in run && wi < |idle.words| ==> wi in wrote
  {
    var buf := MasksOf(run, wordToMask, pfns);
    ghost var b := idle.words;
    ghost var n := WordsWritten(idle.outcome(idle.calls), |buf|);
    var ok := idle.Pwrite(buf, run[0] * WORD_BYTES);
    if ok {
      wrote := RunIndices(b, run[0], n);
      RunPartWrites(b, pfns, run, buf, n);
    } else {
      wrote := [];
      WroteNothing(b, pfns);
      assert idle.written + wrote == idle.written;
    }
  }

  /** The buffer for a run. */
  method MasksOf(run: seq<nat>, wordToMask: map<nat, Word>, ghost pfns: seq<Pfn>) returns (buf: seq<Word>)
    requires Masks(wordToMask, pfns) && forall k :: 0 <= k < |run| ==> run[k] in wordToMask
    ensures |buf| == |run|
    ensures forall k :: 0 <= k < |run| ==> run[k] in WordsOf(pfns) && buf[k] == MaskOf(pfns, run[k])
  {
    buf := [];
    for k := 0 to |run|
      invariant |buf| == k
      invariant forall m :: 0 <= m < k ==> buf[m] == wordToMask[run[m]]
    {
      buf := buf + [wordToMask[run[k]]];
    }
  }

  /** One round of the outer loop: find the run that starts at `i` and write it. */
  method MarkNextRun(idle: IdleFile, sortedWords: seq<nat>, i: nat, wordToMask: map<nat, Word>,
                     ghost pfns: seq<Pfn>, ghost b: Bitmap, ghost wrote: seq<nat>, ghost quiet: bool)
    returns (next: nat, ghost more: seq<nat>)
    requires Ascending(sortedWords) && i < |sortedWords| && Masks(wordToMask, pfns)
    requires forall wi :: wi in sortedWords ==> wi in wordToMask
    requires Marked(b, idle.words, pfns, sortedWords, i, wrote, quiet) && (quiet ==> idle.NoFaults())
    modifies idle
    ensures i < next
    ensures Marked(b, idle.words, pfns, sortedWords, next, wrote + more, quiet) && (quiet ==> idle.NoFaults())
    ensures idle.written == old(idle.written) + more
  {
    var j := RunEnd(sortedWords, i);
    var run := sortedWords[i..j + 1];
    assert forall k :: 0 <= k < |run| ==> run[k] in sortedWords;
    ghost var mid := idle.words;
    more := MarkRun(idle, run, wordToMask, pfns);
    MarkedStep(b, mid, idle.words, pfns, sortedWords, i, j, wrote, more, quiet);
    next := j + 1;
  }

  method MarkPfnsIdle(idle: IdleFile, pfns: seq<Pfn>) returns (ghost wrote: seq<nat>)
    modifies idle
    ensures idle.written == old(idle.written) + wrote
    ensures WroteOnly(old(idle.words), idle.words, pfns, wrote)
    ensures old(idle.NoFaults()) ==>
              && idle.NoFaults() && WroteAll(old(idle.words), pfns, wrote)
              && idle.words == MarkAll(old(idle.words), pfns)
  {
    wrote := [];
    ghost var b, w0, quiet := idle.words, idle.written, idle.NoFaults();
    WroteNothing(b, pfns);
    assert w0 + wrote == w0;
    if pfns == [] {
      WroteAllMarksAll(b, b, pfns, wrote);
      return;
    }
    var wordToMask := MaskByWord(pfns);
    var sortedWords := Sorted(wordToMask.Keys);
    var i := 0;
    while i < |sortedWords|
      invariant Marked(b, idle.words, pfns, sortedWords, i, wrote, quiet)
      invariant idle.written == w0 + wrote
      invariant quiet ==> idle.NoFaults()
      decreases |sortedWords| - i
    {
      ghost var more;
      i, more := MarkNextRun(idle, sortedWords, i, wordToMask, pfns, b, wrote, quiet);
      wrote := wrote + more;
    }
    if quiet {
      MarkedAll(b, idle.words, pfns, sortedWords, wrote);
    }
  }

  /** Each word maps to exactly its listed PFNs. */
  ghost predicate Grouped(wordToPfns: map<nat, seq<Pfn>>, pfns: seq<Pfn>) {
    && wordToPfns.Keys == WordsOf(pfns)
    && forall wi :: wi in wordToPfns ==> GroupOf(wordToPfns[wi], pfns, wi)
  }

  /** `group` holds the listed PFNs of word `wi`. */
  ghost predicate GroupOf(group: seq<Pfn>, pfns: seq<Pfn>, wi: nat) {
    forall p :: p in group <==> p in pfns && p / WORD_BITS == wi
  }

  function AddToGroup(m: map<nat, seq<Pfn>>, p: Pfn): map<nat, seq<Pfn>> {
    var wi := p / WORD_BITS;
    m[wi := (if wi in m then m[wi] else []) + [p]]
  }

  lemma GroupedSnoc(m: map<nat, seq<Pfn>>, pfns: seq<Pfn>, p: Pfn)
    requires Grouped(m, pfns)
    ensures Grouped(AddToGroup(m, p), pfns + [p])
  {
    WordsOfSnoc(pfns, p);
    var after := AddToGroup(m, p);
    forall wi | wi in after
      ensures GroupOf(after[wi], pfns + [p], wi)
    {
      if wi in m {
        assert GroupOf(m[wi], pfns, wi);
      } else {
        assert forall q :: q in pfns ==> q / WORD_BITS in WordsOf(pfns);
      }
    }
  }

  /** PFNs by bitmap word, and the words in order. */
  method GroupPfnsByWord(pfns: seq<Pfn>) returns (sortedWords: seq<nat>, wordToPfns: map<nat, seq<Pfn>>)
    ensures Ascending(sortedWords)
    ensures forall wi :: wi in sortedWords <==> wi in wordToPfns
    ensures Grouped(wordToPfns, pfns)
  {
    wordToPfns := map[];
    for n := 0 to |pfns|
      invariant Grouped(wordToPfns, pfns[..n])
    {
      GroupedSnoc(wordToPfns, pfns[..n], pfns[n]);
      assert pfns[..n + 1] == pfns[..n] + [pfns[n]];
      wordToPfns := AddToGroup(wordToPfns, pfns[n]);
    }
    assert pfns[..|pfns|] == pfns;
    sortedWords := Sorted(wordToPfns.Keys);
  }

  /** The listed page frames whose bit is clear, among the words in `seen`. */
  function ClearIn(b: Bitmap, pfns: seq<Pfn>, seen: set<nat>): set<Pfn> {
    set p | p in pfns && p / WORD_BITS in seen && InRange(b, p) && !Idle(b, p)
  }

  function ClearAll(b: Bitmap, pfns: seq<Pfn>): set<Pfn> {
    set p | p in pfns && InRange(b, p) && !Idle(b, p)
  }

  lemma ClearInSnoc(b: Bitmap, pfns: seq<Pfn>, seen: set<nat>, wi: nat, group: seq<Pfn>)
    requires wi < |b|
    requires GroupOf(group, pfns, wi)
    ensures ClearIn(b, pfns, seen + {wi})
         == ClearIn(b, pfns, seen) + set p | p in group && p % WORD_BITS !in b[wi]
  {
  }

  method ClearPfns(word: Word, pfns: seq<Pfn>) returns (r: set<Pfn>)
    ensures r == set p | p in pfns && p % WORD_BITS !in word
  {
    r := {};
    for n := 0 to |pfns|
      invariant r == set p | p in pfns[..n] && p % WORD_BITS !in word
    {
      assert pfns[..n + 1] == pfns[..n] + [pfns[n]];
      if pfns[n] % WORD_BITS !in word {
        r := r + {pfns[n]};
      }
    }
    assert pfns[..|pfns|] == pfns;
  }

  /** The frames of the words just read whose bit is clear. */
  method ClearInRun(words: seq<Word>, run: seq<nat>, wordToPfns: map<nat, seq<Pfn>>,
                    ghost b: Bitmap, ghost pfns: seq<Pfn>)
    returns (r: set<Pfn>)
    requires |words| <= |run| && forall k :: 0 <= k < |run| ==> run[k] in wordToPfns
    requires forall k :: 0 <= k < |words| ==> run[k] < |b| && words[k] == b[run[k]]
    requires Grouped(wordToPfns, pfns)
    ensures r == ClearIn(b, pfns, SetOf(run[..|words|]))
  {
    r := {};
    for k := 0 to |words|
      invariant r == ClearIn(b, pfns, SetOf(run[..k]))
    {
      ghost var seen := SetOf(run[..k]);
      var wi := run[k];
      ClearInSnoc(b, pfns, seen, wi, wordToPfns[wi]);
      var clear := ClearPfns(words[k], wordToPfns[wi]);
      r := r + clear;
      assert run[..k + 1] == run[..k] + [wi];
      assert SetOf(run[..k + 1]) == seen + {wi};
    }
  }

  lemma ClearInUnion(b: Bitmap, pfns: seq<Pfn>, s: set<nat>, t: set<nat>)
    ensures ClearIn(b, pfns, s + t) == ClearIn(b, pfns, s) + ClearIn(b, pfns, t)
  {
  }

  /** One system call for the run of words `run`. */
  method CheckRun(idle: IdleFile, run: seq<nat>, wordToPfns: map<nat, seq<Pfn>>, ghost pfns: seq<Pfn>)
    returns (clear: set<Pfn>, ghost read: set<nat>)
    requires Consecutive(run) && Grouped(wordToPfns, pfns)
    requires forall k :: 0 <= k < |run| ==> run[k] in wordToPfns
    modifies idle`calls
    ensures clear == ClearIn(idle.words, pfns, read)
    ensures old(idle.NoFaults()) ==>
              idle.NoFaults() && forall k :: 0 <= k < |run| && run[k] < |idle.words| ==> run[k] in read
  {
    clear, read := {}, {};
    var ok, words := idle.Pread(|run| * WORD_BYTES, run[0] * WORD_BYTES);
    if ok {
      clear := ClearInRun(words, run, wordToPfns, idle.words, pfns);
      read := SetOf(run[..|words|]);
      assert forall k :: 0 <= k < |words| ==> run[..|words|][k] in read;
      assert old(idle.NoFaults()) ==> forall k :: 0 <= k < |run| && run[k] < |idle.words| ==> k < |words|;
    }
  }

  /** Exactly the listed frames whose bit is clear when no read fails or is short;
      in every case only such frames. */
  method CheckPfnsAccessed(idle: IdleFile, pfns: seq<Pfn>) returns (accessed: set<Pfn>)
    modifies idle`calls
    ensures accessed <= ClearAll(idle.words, pfns)
    ensures old(idle.NoFaults()) ==> idle.NoFaults() && accessed == ClearAll(idle.words, pfns)
  {
    accessed := {};
    if pfns == [] {
      return;
    }
    var sortedWords, wordToPfns := GroupPfnsByWord(pfns);
    ghost var b, quiet := idle.words, idle.NoFaults();
    ghost var seen: set<nat> := {};
    var i := 0;
    while i < |sortedWords|
      invariant i <= |sortedWords|
      invariant accessed == ClearIn(b, pfns, seen)
      invariant quiet ==> idle.NoFaults()
      invariant quiet ==> forall k :: 0 <= k < i && sortedWords[k] < |b| ==> sortedWords[k] in seen
      decreases |sortedWords| - i
    {
      var j := RunEnd(sortedWords, i);
      var run := sortedWords[i..j + 1];
      assert forall k :: 0 <= k < |run| ==> run[k] in sortedWords && run[k] == run[0] + k;
      var clear, read := CheckRun(idle, run, wordToPfns, pfns);
      ClearInUnion(b, pfns, seen, read);
      assert forall k :: i <= k <= j ==> sortedWords[k] == run[k - i];
      accessed := accessed + clear;
      seen := seen + read;
      i := j + 1;
    }
    if quiet {
      EveryWordSeen(b, pfns, sortedWords, seen);
    }
  }

  lemma EveryWordSeen(b: Bitmap, pfns: seq<Pfn>, words: seq<nat>, seen: set<nat>)
    requires forall wi :: wi in WordsOf(pfns) ==> wi in words
    requires forall k :: 0 <= k < |words| && words[k] < |b| ==> words[k] in seen
    ensures ClearIn(b, pfns, seen) == ClearAll(b, pfns)
  {
    forall p | p in pfns && InRange(b, p)
      ensures p / WORD_BITS in seen
    {
      assert p / WORD_BITS in words;
    }
  }

  // ------------------------------------------------------------------ polling

  function Bump(counts: map<Pfn, int>, p: Pfn): map<Pfn, int> {
    counts[p := (if p in counts then counts[p] else 0) + 1]
  }

  function Count(counts: map<Pfn, int>, p: Pfn): int {
    if p in counts then counts[p] else 0
  }

  /** How many of the polls saw `p` accessed. */
  function Hits(polls: seq<set<Pfn>>, p: Pfn): nat {
    if polls == [] then 0
    else Hits(polls[..|polls| - 1], p) + if p in polls[|polls| - 1] then 1 else 0
  }

  function Reported(polls: seq<set<Pfn>>): nat {
    if polls == [] then 0 else Reported(polls[..|polls| - 1]) + |polls[|polls| - 1]|
  }

  /** Counts are per-frame hits and add up to the reported `n_accessed`s, for the
      finished polls and the part of one poll counted so far. */
  ghost predicate Tallied(counts: map<Pfn, int>, polls: seq<set<Pfn>>, counted: set<Pfn>) {
    && (forall p :: Count(counts, p) == Hits(polls, p) + if p in counted then 1 else 0)
    && Total(counts) == Reported(polls) + |counted|
  }

  lemma BumpTallies(counts: map<Pfn, int>, polls: seq<set<Pfn>>, counted: set<Pfn>, p: Pfn)
    requires Tallied(counts, polls, counted) && p !in counted
    ensures Tallied(Bump(counts, p), polls, counted + {p})
  {
    TotalUpdate(counts, p, Count(counts, p) + 1);
    forall q
      ensures Count(Bump(counts, p), q) == Hits(polls, q) + if q in counted + {p} then 1 else 0
    {
      assert Count(counts, q) == Hits(polls, q) + if q in counted then 1 else 0;
    }
  }

  lemma {:induction false} PollTallies(counts: map<Pfn, int>, polls: seq<set<Pfn>>, counted: set<Pfn>)
    requires Tallied(counts, polls, counted)
    ensures Tallied(counts, polls + [counted], {})
  {
    var more := polls + [counted];
    assert more[..|more| - 1] == polls;
    forall p
      ensures Count(counts, p) == Hits(more, p)
    {
      assert Count(counts, p) == Hits(polls, p) + if p in counted then 1 else 0;
    }
  }

  /** The poller's state.  `polls` records which frames each poll found accessed. */
  class Poller {
    const idle: IdleFile
    var accessCounts: map<Pfn, int>
    ghost var polls: seq<set<Pfn>>

    ghost predicate Valid()
      reads this
    {
      Tallied(accessCounts, polls, {})
    }

    constructor (idle: IdleFile)
      ensures Valid() && polls == [] && this.idle == idle
    {
      this.idle, accessCounts, polls := idle, map[], [];
    }

    /** Mark, wait while the process touches pages, check, count. */
    method PollOnce(pfns: seq<Pfn>, touched: seq<Pfn>)
      returns (nAccessed: nat, nTotal: nat, ghost accessed: set<Pfn>)
      requires Valid() && idle as object != this
      modifies this, idle
      ensures Valid()
      ensures polls == old(polls) + [accessed]
      ensures nAccessed == |accessed| && nTotal == |pfns|
      ensures accessed <= ClearAll(idle.words, pfns)
      ensures old(idle.NoFaults()) ==>
                idle.NoFaults() && accessed == TouchedOf(old(idle.words), pfns, touched)
    {
      ghost var b := idle.words;
      ghost var wrote := MarkPfnsIdle(idle, pfns);
      idle.AccessPages(touched);
      var found := CheckPfnsAccessed(idle, pfns);
      if old(idle.NoFaults()) {
        TouchedIsClear(b, pfns, touched);
      }
      CountAccessed(found);
      nAccessed, nTotal, accessed := |found|, |pfns|, found;
    }

    method CountAccessed(accessed: set<Pfn>)
      requires Valid()
      modifies this
      ensures Valid() && polls == old(polls) + [accessed]
    {
      var counts := BumpAll(accessCounts, accessed, polls);
      accessCounts := counts;
      PollTallies(accessCounts, polls, accessed);
      polls := polls + [accessed];
    }
  }

  /** One more for each accessed frame. */
  method BumpAll(counts: map<Pfn, int>, accessed: set<Pfn>, ghost polls: seq<set<Pfn>>) returns (r: map<Pfn, int>)
    requires Tallied(counts, polls, {})
    ensures Tallied(r, polls, accessed)
  {
    r := counts;
    var rest := accessed;
    ghost var done: set<Pfn> := {};
    while rest != {}
      invariant done + rest == accessed && done !! rest
      invariant Tallied(r, polls, done)
      decreases rest
    {
      var p :| p in rest;
      BumpTallies(r, polls, done, p);
      r, rest, done := Bump(r, p), rest - {p}, done + {p};
    }
  }

  function TouchedOf(b: Bitmap, pfns: seq<Pfn>, touched: seq<Pfn>): set<Pfn> {
    set p | p in pfns && p in touched && InRange(b, p)
  }

  /** After marking, a listed frame's bit is clear exactly when it was touched. */
  lemma TouchedIsClear(b: Bitmap, pfns: seq<Pfn>, touched: seq<Pfn>)
    ensures ClearAll(TouchAll(MarkAll(b, pfns), touched), pfns)
         == TouchedOf(b, pfns, touched)
  {
    var marked := MarkAll(b, pfns);
    forall p | p in pfns && InRange(b, p)
      ensures Idle(TouchAll(marked, touched), p) <==> p !in touched
    {
      MarkAllSetsListed(b, pfns, p);
      TouchAllClearsListed(marked, touched, p);
    }
  }
}
