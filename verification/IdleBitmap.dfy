/** The idle-page bitmap file: one bit per page frame in 64-bit words, where a
    write ORs bits in and an access to a page clears its bit. */
module IdleBitmap {
  type Pfn = nat
  const WORD_BITS := 64
  const WORD_BYTES := 8

  /** A 64-bit word, as the set of positions of its one bits. */
  type Word = w: set<nat> | forall k :: k in w ==> k < WORD_BITS

  type Bitmap = seq<Word>

  predicate InRange(b: Bitmap, p: Pfn) {
    p / WORD_BITS < |b|
  }

  predicate Idle(b: Bitmap, p: Pfn) {
    InRange(b, p) && p % WORD_BITS in b[p / WORD_BITS]
  }

  /** A frame's bit is bit `p % 64` of the 64-bit word at byte `8 * (p / 64)` of the file. */
  lemma FrameBit(b: Bitmap, p: Pfn)
    ensures InRange(b, p) <==> p / 64 < |b|
    ensures Idle(b, p) <==> p / 64 < |b| && p % 64 in b[p / 64]
    ensures p / WORD_BITS * WORD_BYTES == 8 * (p / 64)
  {
  }

  function WordsOf(pfns: seq<Pfn>): set<nat> {
    set p | p in pfns :: p / WORD_BITS
  }

  /** The bits of word `wi` that `pfns` lists. */
  function MaskOf(pfns: seq<Pfn>, wi: nat): Word {
    set p | p in pfns && p / WORD_BITS == wi :: p % WORD_BITS
  }

  /** `b` with the listed bits of the words in `written` ORed in. */
  function MarkWords(b: Bitmap, pfns: seq<Pfn>, written: set<nat>): Bitmap {
    seq(|b|, wi requires 0 <= wi < |b| => if wi in written then b[wi] + MaskOf(pfns, wi) else b[wi])
  }

  function MarkAll(b: Bitmap, pfns: seq<Pfn>): Bitmap {
    MarkWords(b, pfns, WordsOf(pfns))
  }

  lemma {:induction false} MarkAllSetsListed(b: Bitmap, pfns: seq<Pfn>, p: Pfn)
    requires InRange(b, p)
    ensures Idle(MarkAll(b, pfns), p) <==> Idle(b, p) || p in pfns
  {
    var wi := p / WORD_BITS;
    if p in pfns {
      assert p % WORD_BITS in MaskOf(pfns, wi);
    }
    if p % WORD_BITS in MaskOf(pfns, wi) {
      var q :| q in pfns && q / WORD_BITS == wi && q % WORD_BITS == p % WORD_BITS;
      assert q == p;
    }
  }

  function SetOf(s: seq<nat>): set<nat> {
    set x | x in s
  }

  function Touch(b: Bitmap, p: Pfn): Bitmap {
    if InRange(b, p) then b[p / WORD_BITS := b[p / WORD_BITS] - {p % WORD_BITS}] else b
  }

  lemma {:induction false} TouchClearsOne(b: Bitmap, p: Pfn, q: Pfn)
    ensures Idle(Touch(b, p), q) <==> Idle(b, q) && p != q
  {
  }

  function TouchAll(b: Bitmap, ps: seq<Pfn>): (r: Bitmap)
    ensures |r| == |b|
  {
    if ps == [] then b else Touch(TouchAll(b, ps[..|ps| - 1]), ps[|ps| - 1])
  }

  lemma {:induction false} TouchAllClearsListed(b: Bitmap, ps: seq<Pfn>, q: Pfn)
    ensures Idle(TouchAll(b, ps), q) <==> Idle(b, q) && q !in ps
  {
    if ps == [] {
    } else {
      TouchAllClearsListed(b, ps[..|ps| - 1], q);
      TouchClearsOne(TouchAll(b, ps[..|ps| - 1]), ps[|ps| - 1], q);
      assert ps == ps[..|ps| - 1] + [ps[|ps| - 1]];
    }
  }

  /** What the n-th system call on the file does. */
  datatype Outcome = Full | Short(bytes: nat) | Failed

  /** How many of `n` words a call that succeeds writes: when it comes back short, the
      leading ones, at least one. */
  function WordsWritten(o: Outcome, n: nat): (m: nat)
    ensures m <= n && (n > 0 && !o.Failed? ==> m > 0) && (o.Full? ==> m == n)
  {
    match o
    case Full => n
    case Short(bytes) => if bytes < WORD_BYTES then Min(1, n) else Min(bytes / WORD_BYTES, n)
    case Failed => 0
  }

  function Min(a: nat, b: nat): nat {
    if a <= b then a else b
  }

  function Indices(lo: nat, hi: nat): (r: seq<nat>)
    requires lo <= hi
    ensures |r| == hi - lo && forall i :: 0 <= i < |r| ==> r[i] == lo + i
  {
    seq(hi - lo, i requires 0 <= i => lo + i)
  }

  lemma IndicesHold(lo: nat, hi: nat)
    requires lo <= hi
    ensures forall x :: x in Indices(lo, hi) <==> lo <= x < hi
  {
    forall x | lo <= x < hi
      ensures x in Indices(lo, hi)
    {
      assert Indices(lo, hi)[x - lo] == x;
    }
  }

  /** `b` with `buf` ORed in from word `lo` on; what falls past the end is dropped. */
  function OrRun(b: Bitmap, lo: nat, buf: seq<Word>): Bitmap {
    seq(|b|, wi requires 0 <= wi < |b| => if lo <= wi < lo + |buf| then b[wi] + buf[wi - lo] else b[wi])
  }

  function RunIndices(b: Bitmap, lo: nat, n: nat): seq<nat>
    requires lo <= |b|
  {
    Indices(lo, Min(lo + n, |b|))
  }

  /** The kernel side of the file.  `outcome` decides which calls fail or come
      back short; `written` lists the words written, in order. */
  class IdleFile {
    const outcome: nat -> Outcome
    var words: Bitmap
    var calls: nat
    ghost var written: seq<nat>

    constructor (words: Bitmap, outcome: nat -> Outcome)
      ensures this.words == words && this.outcome == outcome && calls == 0 && written == []
    {
      this.words, this.outcome, calls, written := words, outcome, 0, [];
    }

    ghost predicate NoFaults()
      reads this
    {
      forall n :: calls <= n ==> outcome(n) == Full
    }

    /** Words of `buf` past the end of the bitmap are dropped; a write that starts
        past the end is an error.  Nobody looks at how much was written. */
    method Pwrite(buf: seq<Word>, offset: nat) returns (ok: bool)
      requires offset % WORD_BYTES == 0
      modifies this
      ensures calls == old(calls) + 1
      ensures ok <==> outcome(old(calls)) != Failed && offset / WORD_BYTES < |old(words)|
      ensures !ok ==> words == old(words) && written == old(written)
      ensures var n := WordsWritten(outcome(old(calls)), |buf|);
              ok ==>
                && words == OrRun(old(words), offset / WORD_BYTES, buf[..n])
                && written == old(written) + RunIndices(old(words), offset / WORD_BYTES, n)
    {
      var lo, n := offset / WORD_BYTES, WordsWritten(outcome(calls), |buf|);
      ok := outcome(calls) != Failed && lo < |words|;
      calls := calls + 1;
      if ok {
        written := written + RunIndices(words, lo, n);
        words := OrRun(words, lo, buf[..n]);
      }
    }

    /** The whole words among the bytes a read returns; None for an error. */
    method Pread(bytes: nat, offset: nat) returns (ok: bool, got: seq<Word>)
      requires offset % WORD_BYTES == 0
      modifies this`calls
      ensures calls == old(calls) + 1
      ensures ok <==> outcome(old(calls)) != Failed
      ensures |got| <= bytes / WORD_BYTES
      ensures offset / WORD_BYTES + |got| <= |words| || got == []
      ensures forall k :: 0 <= k < |got| ==> got[k] == words[offset / WORD_BYTES + k]
      ensures outcome(old(calls)) == Full && offset / WORD_BYTES <= |words| ==>
                |got| == Min(bytes / WORD_BYTES, |words| - offset / WORD_BYTES)
    {
      var lo := offset / WORD_BYTES;
      ok, got := outcome(calls) != Failed, [];
      if ok && lo < |words| {
        var full := Min(bytes / WORD_BYTES, |words| - lo);
        var n := if outcome(calls).Short? then Min(outcome(calls).bytes / WORD_BYTES, full) else full;
        got := words[lo..lo + n];
      }
      calls := calls + 1;
    }

    /** The process touches pages. */
    method AccessPages(ps: seq<Pfn>)
      modifies this`words
      ensures words == TouchAll(old(words), ps)
    {
      words := TouchAll(words, ps);
    }
  }
}
