/** What it takes to set the bits of a list of page frames, word by word or run by
    run: the masks, and the state between two writes. */
module IdleMarking {
  import opened Sums
  import opened IdleBitmap

  /** The words of `wrote` were written in ascending order, once each, and nothing
      else changed. */
  ghost predicate WroteOnly(before: Bitmap, after: Bitmap, pfns: seq<Pfn>, wrote: seq<nat>) {
    && Ascending(wrote)
    && (forall wi :: wi in wrote ==> wi in WordsOf(pfns) && wi < |before|)
    && after == MarkWords(before, pfns, SetOf(wrote))
  }

  /** Nothing failed, so every listed word that exists was written. */
  ghost predicate WroteAll(before: Bitmap, pfns: seq<Pfn>, wrote: seq<nat>) {
    forall wi :: wi in WordsOf(pfns) && wi < |before| ==> wi in wrote
  }

  lemma WroteAllMarksAll(before: Bitmap, after: Bitmap, pfns: seq<Pfn>, wrote: seq<nat>)
    requires WroteOnly(before, after, pfns, wrote) && WroteAll(before, pfns, wrote)
    ensures after == MarkAll(before, pfns)
  {
  }

  lemma WordsOfSnoc(pfns: seq<Pfn>, p: Pfn)
    ensures WordsOf(pfns + [p]) == WordsOf(pfns) + {p / WORD_BITS}
    ensures forall wi :: MaskOf(pfns + [p], wi)
                         == MaskOf(pfns, wi) + if p / WORD_BITS == wi then {p % WORD_BITS} else {}
    ensures p / WORD_BITS !in WordsOf(pfns) ==> MaskOf(pfns, p / WORD_BITS) == {}
  {
    forall q | q in pfns
      ensures q / WORD_BITS in WordsOf(pfns + [p])
    {
      assert q in pfns + [p];
    }
    assert p in pfns + [p];
    forall wi, k | k in MaskOf(pfns, wi) || (p / WORD_BITS == wi && k == p % WORD_BITS)
      ensures k in MaskOf(pfns + [p], wi)
    {
      if k in MaskOf(pfns, wi) {
        var q :| q in pfns && q / WORD_BITS == wi && q % WORD_BITS == k;
        assert q in pfns + [p];
      }
    }
  }

  lemma WroteNothing(b: Bitmap, pfns: seq<Pfn>)
    ensures WroteOnly(b, b, pfns, [])
  {
    assert b == MarkWords(b, pfns, SetOf([]));
  }

  lemma WroteMore(b: Bitmap, mid: Bitmap, after: Bitmap, pfns: seq<Pfn>, one: seq<nat>, two: seq<nat>)
    requires WroteOnly(b, mid, pfns, one) && WroteOnly(mid, after, pfns, two)
    requires forall x, y :: x in one && y in two ==> x < y
    ensures WroteOnly(b, after, pfns, one + two)
  {
    assert forall i :: 0 <= i < |one| ==> one[i] in one;
    assert forall i :: 0 <= i < |two| ==> two[i] in two;
    assert SetOf(one + two) == SetOf(one) + SetOf(two);
  }

  /** The dictionary of masks a PFN list calls for. */
  predicate Masks(m: map<nat, Word>, pfns: seq<Pfn>) {
    m.Keys == WordsOf(pfns) && forall wi :: wi in m ==> m[wi] == MaskOf(pfns, wi)
  }

  function AddMask(m: map<nat, Word>, p: Pfn): map<nat, Word> {
    var wi := p / WORD_BITS;
    m[wi := (if wi in m then m[wi] else {}) + {p % WORD_BITS}]
  }

  lemma AddMaskKeepsMasks(m: map<nat, Word>, pfns: seq<Pfn>, p: Pfn)
    requires Masks(m, pfns)
    ensures Masks(AddMask(m, p), pfns + [p])
  {
    WordsOfSnoc(pfns, p);
  }

  predicate Consecutive(run: seq<nat>) {
    run != [] && forall k :: 0 <= k < |run| ==> run[k] == run[0] + k
  }

  lemma RunCovers(b: Bitmap, run: seq<nat>)
    requires Consecutive(run) && run[0] < |b|
    ensures forall wi :: wi in RunIndices(b, run[0], |run|) <==> wi in run && wi < |b|
  {
    IndicesHold(run[0], Min(run[0] + |run|, |b|));
    forall wi | run[0] <= wi < run[0] + |run|
      ensures wi in run
    {
      assert run[wi - run[0]] == wi;
    }
  }

  lemma RunWrites(b: Bitmap, pfns: seq<Pfn>, run: seq<nat>, buf: seq<Word>)
    requires Consecutive(run) && |buf| == |run| && run[0] < |b|
    requires forall k :: 0 <= k < |run| ==> run[k] in WordsOf(pfns) && buf[k] == MaskOf(pfns, run[k])
    ensures WroteOnly(b, OrRun(b, run[0], buf), pfns, RunIndices(b, run[0], |run|))
    ensures forall wi :: wi in RunIndices(b, run[0], |run|) <==> wi in run && wi < |b|
  {
    RunCovers(b, run);
    var after := OrRun(b, run[0], buf);
    var marked := MarkWords(b, pfns, SetOf(RunIndices(b, run[0], |run|)));
    forall wi | 0 <= wi < |b|
      ensures after[wi] == marked[wi]
    {
      if run[0] <= wi < run[0] + |run| {
        assert run[wi - run[0]] == wi;
        assert buf[wi - run[0]] == MaskOf(pfns, wi);
        assert wi in run;
      } else {
        assert wi !in run;
      }
    }
  }

  /** A call that writes the first `n` words of a run. */
  lemma RunPartWrites(b: Bitmap, pfns: seq<Pfn>, run: seq<nat>, buf: seq<Word>, n: nat)
    requires Consecutive(run) && |buf| == |run| && run[0] < |b| && 0 < n <= |run|
    requires forall k :: 0 <= k < |run| ==> run[k] in WordsOf(pfns) && buf[k] == MaskOf(pfns, run[k])
    ensures WroteOnly(b, OrRun(b, run[0], buf[..n]), pfns, RunIndices(b, run[0], n))
    ensures forall wi :: wi in RunIndices(b, run[0], n) ==> wi in run
    ensures n == |run| ==> forall wi :: wi in run && wi < |b| ==> wi in RunIndices(b, run[0], n)
  {
    RunWrites(b, pfns, run[..n], buf[..n]);
    assert n == |run| ==> run[..n] == run;
  }

  /** The words before index `i` are done; all of them, when nothing failed. */
  ghost predicate Marked(b: Bitmap, now: Bitmap, pfns: seq<Pfn>, words: seq<nat>, i: nat,
                         wrote: seq<nat>, quiet: bool) {
    && i <= |words| && WroteOnly(b, now, pfns, wrote)
    && (forall wi :: wi in wrote ==> wi in words[..i])
    && (quiet ==> forall wi :: wi in words[..i] && wi < |b| ==> wi in wrote)
  }

  lemma MarkedStep(b: Bitmap, mid: Bitmap, now: Bitmap, pfns: seq<Pfn>, words: seq<nat>, i: nat, j: nat,
                   one: seq<nat>, two: seq<nat>, quiet: bool)
    requires Ascending(words) && i <= j < |words|
    requires Marked(b, mid, pfns, words, i, one, quiet)
    requires WroteOnly(mid, now, pfns, two)
    requires forall wi :: wi in two ==> wi in words[i..j + 1]
    requires quiet ==> forall wi :: wi in words[i..j + 1] && wi < |b| ==> wi in two
    ensures Marked(b, now, pfns, words, j + 1, one + two, quiet)
  {
    assert words[..j + 1] == words[..i] + words[i..j + 1];
    WroteMore(b, mid, now, pfns, one, two);
  }

  lemma MarkedAll(b: Bitmap, now: Bitmap, pfns: seq<Pfn>, words: seq<nat>, wrote: seq<nat>)
    requires Marked(b, now, pfns, words, |words|, wrote, true)
    requires forall wi :: wi in WordsOf(pfns) ==> wi in words
    ensures WroteAll(b, pfns, wrote) && now == MarkAll(b, pfns)
  {
    assert words[..|words|] == words;
    WroteAllMarksAll(b, now, pfns, wrote);
  }
}
