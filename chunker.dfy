/** The document chunker of the admin upload page
    (src/components/AdminDashboard.tsx, `createBetterChunks` and the guards
    of `handleUpload`).

    Raw extracted text is cleaned (six boilerplate deletions, collapse of
    line-feed runs, trim), split into paragraphs, and the paragraphs that
    survive three filters are packed greedily into a buffer of about
    `TargetChunkSize` characters.  When a paragraph does not fit, the buffer
    becomes a chunk and the next buffer starts with an overlap seed: the
    longest run of trailing sentences of the old buffer that fits in
    `OverlapSize` characters.  Finally chunks that are short or dense with
    address and firm markers are dropped.

    The packing is specified on `Segment`s (a seed and the whole paragraphs
    that follow it); `CreateBetterChunks` keeps the source's string buffer
    and is proved to compute the same chunks. */
module Chunker {
  import opened Text
  import opened Wrappers
  import opened Patterns
  import opened Filtering

  const TargetChunkSize: nat := 3500
  const OverlapSize: nat := 700
  /** Paragraphs whose trimmed length is at most this are dropped at the split. */
  const MinParagraphLength: nat := 50
  /** Paragraphs shorter than this are skipped by the packing loop. */
  const MinPackedParagraph: nat := 30
  /** Sentences whose trimmed length is at most this are not used for overlap. */
  const MinSentenceLength: nat := 20
  const MinChunkLength: nat := 200
  /** Extracted text shorter than this fails the upload. */
  const MinExtractedLength: nat := 100

  // ---------------------------------------------------------------------
  // Cleaning
  // ---------------------------------------------------------------------

  /** The six boilerplate spans deleted before splitting, in the order the
      source applies them. */
  function CleaningPatterns(): seq<Pattern> {
    [ Pattern(Lits("UNITED STATES DEPARTMENT OF JUSTICE"), Some(Lits("WILMINGTON, DE ") + Digits5())),
      Pattern(Lits("ATTN:"), Some(Lits("NEW YORK, NY ") + Digits5())),
      Pattern(Lits("P.O.") + [Space] + Lits("BOX") + [Space, Digits],
              Some(Lits("WASHINGTON,") + [Space] + Lits("DC") + [Space] + Digits5())),
      Pattern(Lits("CASE NO.:"), Some([Lit('\n')])),
      Pattern(Lits("FILED:"), Some([Lit('\n')])),
      Pattern(Lits("Page ") + [Digits] + Lits(" of ") + [Digits], None) ]
  }

  /** Applies the deletions of `ps` one after the other. */
  function DeleteBoilerplate(s: string, ps: seq<Pattern>): (r: string)
    ensures |r| <= |s|
    ensures IsSubsequence(r, s)
    decreases |ps|
  {
    if ps == [] then
      SubsequenceRefl(s);
      s
    else
      var once := DeleteAll(s, ps[0]);
      var r := DeleteBoilerplate(once, ps[1..]);
      SubsequenceTrans(r, once, s);
      r
  }

  /** The cleaning chain: only deletes characters (a run of three or more
      line feeds keeps two of them), and leaves no surrounding whitespace
      and no three line feeds in a row. */
  function CleanText(text: string): (r: string)
    ensures |r| <= |text|
    ensures IsSubsequence(r, text)
    ensures IsTrimmed(r)
    ensures NoTripleNewline(r)
  {
    var deleted := DeleteBoilerplate(text, CleaningPatterns());
    var collapsed := CollapseNewlines(deleted);
    var r := Trim(collapsed);
    TrimIsSubsequence(collapsed);
    SubsequenceTrans(r, collapsed, deleted);
    SubsequenceTrans(r, deleted, text);
    TrimKeepsNoTripleNewline(collapsed);
    r
  }

  // ---------------------------------------------------------------------
  // Paragraphs and their filters
  // ---------------------------------------------------------------------

  /** The paragraph filter's callback `p => p.trim().length > 50`. */
  predicate IsLongParagraph(p: string) {
    |Trim(p)| > MinParagraphLength
  }

  /** The pieces whose trimmed length exceeds `MinParagraphLength`,
      untrimmed: every long piece and no other, in order, each as often as
      it occurs. */
  function KeepLongParagraphs(pieces: seq<string>): (r: seq<string>)
    ensures forall i :: 0 <= i < |r| ==> |Trim(r[i])| > MinParagraphLength && r[i] in pieces
    ensures forall k :: 0 <= k < |pieces| && |Trim(pieces[k])| > MinParagraphLength ==> pieces[k] in r
    ensures Selects(r, pieces, IsLongParagraph)
  {
    FilterMembers(pieces, IsLongParagraph);
    FilterSelects(pieces, IsLongParagraph);
    Filter(pieces, IsLongParagraph)
  }

  /** `cleaned.split(/\n\s*\n/).filter(p => p.trim().length > 50)`. */
  function Paragraphs(cleaned: string): seq<string> {
    KeepLongParagraphs(Split(cleaned, ParagraphBreak))
  }

  /** A paragraph that starts with a street address. */
  predicate IsAddressParagraph(tp: string) {
    StartsWithStreetAddress(ToLower(tp))
  }

  /** `/^[A-Z\s]+LLP|ATTN:|C\/O|P\.O\.\sBOX/i`; the anchor belongs to the
      first alternative only, so the other three match anywhere. */
  predicate IsFirmParagraph(tp: string) {
    var l := ToLower(tp);
    RunThenWord(l, 0, ["llp"]) || Contains(l, "attn:") || Contains(l, "c/o")
    || MatchesSomewhere(l, Lits("p.o.") + [Space] + Lits("box"))
  }

  /** The packing loop's `continue` conditions for a trimmed paragraph. */
  predicate Skipped(tp: string) {
    IsAddressParagraph(tp) || IsFirmParagraph(tp) || |tp| < MinPackedParagraph
  }

  /** A paragraph as the packing loop sees it: trimmed, and whether one of
      the loop's three `continue` tests drops it. */
  datatype Candidate = Candidate(text: string, skip: bool)

  /** A candidate the loop takes is a non-empty trimmed paragraph. */
  predicate WellFormed(c: Candidate) {
    !c.skip ==> c.text != [] && IsTrimmed(c.text)
  }

  function Classify(p: string): (c: Candidate)
    ensures WellFormed(c)
  {
    var tp := Trim(p);
    Candidate(tp, Skipped(tp))
  }

  function Candidates(ps: seq<string>): (cs: seq<Candidate>)
    ensures |cs| == |ps|
    ensures forall i :: 0 <= i < |ps| ==> cs[i] == Classify(ps[i]) && WellFormed(cs[i])
  {
    seq(|ps|, i requires 0 <= i < |ps| => Classify(ps[i]))
  }

  /** What the loop takes from one candidate: its text, or nothing. */
  function Taken(c: Candidate): seq<string> {
    if c.skip then [] else [c.text]
  }

  /** The texts of the candidates among the first `n` that the loop takes. */
  function AcceptedUpTo(cs: seq<Candidate>, n: nat): seq<string>
    requires n <= |cs|
  {
    if n == 0 then [] else AcceptedUpTo(cs, n - 1) + Taken(cs[n - 1])
  }

  /** The trimmed paragraphs that the packing loop takes, in input order. */
  function Accepted(ps: seq<string>): seq<string> {
    AcceptedUpTo(Candidates(ps), |ps|)
  }

  // ---------------------------------------------------------------------
  // Sentences and the overlap seed
  // ---------------------------------------------------------------------

  /** Every piece trimmed, in order. */
  function TrimAll(pieces: seq<string>): (r: seq<string>)
    ensures |r| == |pieces|
    ensures forall i :: 0 <= i < |r| ==> r[i] == Trim(pieces[i])
  {
    seq(|pieces|, i requires 0 <= i < |pieces| => Trim(pieces[i]))
  }

  /** The sentence filter's test `s => s.trim().length > 20`, applied to an
      already trimmed piece. */
  predicate IsLongSentence(t: string) {
    |t| > MinSentenceLength
  }

  /** The candidates of the overlap walk:
      `buf.split(/[.!?]+/).filter(s => s.trim().length > 20)`, each trimmed
      as the walk trims it.  Filtering the pieces on their trimmed length
      and trimming the survivors is filtering the trimmed pieces on their
      length: every long piece and no other, in order, once per occurrence. */
  function Sentences(buf: string): (r: seq<string>)
    ensures forall i :: 0 <= i < |r| ==> |r[i]| > MinSentenceLength && IsTrimmed(r[i])
    ensures Selects(r, TrimAll(Split(buf, SentenceBreak)), IsLongSentence)
  {
    var trimmed := TrimAll(Split(buf, SentenceBreak));
    FilterMembers(trimmed, IsLongSentence);
    FilterSelects(trimmed, IsLongSentence);
    var r := Filter(trimmed, IsLongSentence);
    assert forall i :: 0 <= i < |r| ==> IsTrimmed(r[i]) by {
      forall i | 0 <= i < |r|
        ensures IsTrimmed(r[i])
      {
        var j :| 0 <= j < |trimmed| && trimmed[j] == r[i];
      }
    }
    r
  }

  /** The longest suffix of `sentences` whose lengths add up to at most
      `OverlapSize`. */
  function OverlapSeed(sentences: seq<string>): seq<string>
    decreases |sentences|
  {
    if SumLen(sentences) <= OverlapSize then sentences else OverlapSeed(sentences[1..])
  }

  lemma {:induction false} SumLenSplit(s: seq<string>, k: nat)
    requires k <= |s|
    ensures SumLen(s) == SumLen(s[..k]) + SumLen(s[k..])
  {
    assert s == s[..k] + s[k..];
    SumLenAppend(s[..k], s[k..]);
  }

  /** The seed is a contiguous suffix, in order, of total length at most
      `OverlapSize`, and the sentence before it does not fit. */
  lemma {:induction false} OverlapSeedIsLongestFit(sentences: seq<string>)
    ensures var seed := OverlapSeed(sentences);
      && |seed| <= |sentences|
      && seed == sentences[|sentences| - |seed|..]
      && SumLen(seed) <= OverlapSize
      && (|seed| < |sentences| ==> SumLen(sentences[|sentences| - |seed| - 1..]) > OverlapSize)
    decreases |sentences|
  {
    if SumLen(sentences) > OverlapSize {
      assert sentences != [];
      var tail := sentences[1..];
      OverlapSeedIsLongestFit(tail);
      var seed := OverlapSeed(tail);
      if |seed| == |tail| {
        assert sentences[|sentences| - |seed| - 1..] == sentences;
      } else {
        assert sentences[|sentences| - |seed| - 1..] == tail[|tail| - |seed| - 1..];
      }
    }
  }

  /** Any suffix that fits and whose predecessor does not is the seed. */
  lemma {:induction false} OverlapSeedUnique(sentences: seq<string>, k: nat)
    requires k <= |sentences|
    requires SumLen(sentences[k..]) <= OverlapSize
    requires k > 0 ==> SumLen(sentences[k - 1..]) > OverlapSize
    ensures OverlapSeed(sentences) == sentences[k..]
    decreases |sentences|
  {
    if SumLen(sentences) <= OverlapSize {
      if k > 0 {
        SumLenSplit(sentences, k - 1);
        assert false;
      }
    } else {
      if k == 0 {
        assert false;
      }
      assert sentences[1..][k - 1..] == sentences[k..];
      if k > 1 {
        assert sentences[1..][k - 2..] == sentences[k - 1..];
      }
      OverlapSeedUnique(sentences[1..], k - 1);
    }
  }

  /** The backwards walk of the source: takes sentences from the end while
      the total stays within `OverlapSize`, stopping at the first one that
      does not fit or once the budget is used up. */
  method OverlapSentences(sentences: seq<string>) returns (seed: seq<string>)
    ensures |seed| <= |sentences| && seed == sentences[|sentences| - |seed|..]
    ensures SumLen(seed) <= OverlapSize
    ensures |seed| < |sentences| ==>
      SumLen(seed) >= OverlapSize || SumLen(seed) + |sentences[|sentences| - |seed| - 1]| > OverlapSize
    ensures (forall k :: 0 <= k < |sentences| ==> sentences[k] != []) ==> seed == OverlapSeed(sentences)
  {
    seed := [];
    var overlapLength := 0;
    var i := |sentences| - 1;
    while i >= 0 && overlapLength < OverlapSize
      invariant -1 <= i < |sentences|
      invariant seed == sentences[i + 1..]
      invariant overlapLength == SumLen(seed) <= OverlapSize
      decreases i + 1
    {
      var sentence := sentences[i];
      if overlapLength + |sentence| <= OverlapSize {
        SumLenAppend([sentence], seed);
        assert [sentence] + seed == sentences[i..];
        seed := [sentence] + seed;
        overlapLength := overlapLength + |sentence|;
        i := i - 1;
      } else {
        break;
      }
    }
    if i >= 0 {
      SumLenAppend([sentences[i]], seed);
      assert [sentences[i]] + seed == sentences[i..];
    }
    if forall k :: 0 <= k < |sentences| ==> sentences[k] != [] {
      OverlapSeedUnique(sentences, i + 1);
    }
  }

  /** The overlap text that starts the next buffer:
      `overlapSentences.join(' ') + (overlapSentences.length > 0 ? ' ' : '')`. */
  function SeedText(seed: seq<string>): string {
    Join(seed, " ") + (if |seed| > 0 then " " else [])
  }

  // ---------------------------------------------------------------------
  // Packing, specified on segments
  // ---------------------------------------------------------------------

  /** A buffer: an overlap seed followed by whole paragraphs. */
  datatype Segment = Segment(seed: string, paras: seq<string>)

  /** The buffer's text: the seed, then the paragraphs separated by a blank line. */
  function SegmentText(g: Segment): string {
    g.seed + Join(g.paras, "\n\n")
  }

  /** The seed of the buffer that follows `g`: the overlap sentences of its
      whole text. */
  function NextSeed(g: Segment): string {
    SeedText(OverlapSeed(Sentences(SegmentText(g))))
  }

  /** The loop state: the flushed buffers and the current one. */
  datatype Packing = Packing(done: seq<Segment>, cur: Segment)

  const Start := Packing([], Segment([], []))

  /** One iteration of the paragraph loop.  `seedOf` gives the seed of the
      buffer that follows a flushed one; the chunker uses `NextSeed`, and the
      lemmas below that do not depend on the overlap hold for any rule.  The
      source flushes when the buffer is not blank once trimmed; in a valid
      state that is exactly when the buffer holds a paragraph (`StepOnBuffer`
      proves the two tests agree). */
  function Step(st: Packing, c: Candidate, seedOf: Segment -> string): Packing {
    if c.skip then st
    else
      if st.cur.paras != [] && |SegmentText(st.cur)| + |c.text| > TargetChunkSize then
        Packing(st.done + [st.cur], Segment(seedOf(st.cur), [c.text]))
      else
        Packing(st.done, Segment(st.cur.seed, st.cur.paras + [c.text]))
  }

  /** The loop state after the first `n` candidates of `cs`. */
  function PackUpTo(cs: seq<Candidate>, n: nat, seedOf: Segment -> string): Packing
    requires n <= |cs|
  {
    if n == 0 then Start else Step(PackUpTo(cs, n - 1, seedOf), cs[n - 1], seedOf)
  }

  /** The loop state after all of `cs`. */
  function Pack(cs: seq<Candidate>, seedOf: Segment -> string): Packing {
    PackUpTo(cs, |cs|, seedOf)
  }

  /** Every buffer that holds text, in order: the flushed ones and the
      current one if it is not empty. */
  function AllSegments(st: Packing): seq<Segment> {
    st.done + (if st.cur.paras != [] then [st.cur] else [])
  }

  /** The paragraphs of `gs`, in order. */
  function Flatten(gs: seq<Segment>): seq<string> {
    if gs == [] then [] else Flatten(gs[..|gs| - 1]) + gs[|gs| - 1].paras
  }

  predicate GoodSegment(g: Segment) {
    forall j :: 0 <= j < |g.paras| ==> g.paras[j] != [] && IsTrimmed(g.paras[j])
  }

  /** Each buffer's seed is derived from the buffer before it; the first has none. */
  predicate SeedsChained(gs: seq<Segment>, seedOf: Segment -> string) {
    && (gs != [] ==> gs[0].seed == [])
    && forall i, j :: 0 <= i < |gs| && 0 <= j < |gs| && j == i + 1 ==> gs[j].seed == seedOf(gs[i])
  }

  /** The invariant of the loop state: every buffer holds whole trimmed
      paragraphs, and the buffer is empty only before the first one. */
  predicate Valid(st: Packing) {
    && (forall g :: g in st.done ==> g.paras != [] && GoodSegment(g))
    && GoodSegment(st.cur)
    && (st.cur.paras == [] ==> st.done == [] && st.cur.seed == [])
  }

  /** The overlap invariant of the loop state: each buffer after the first
      opens with the seed taken from the buffer flushed before it. */
  predicate Chained(st: Packing, seedOf: Segment -> string) {
    SeedsChained(st.done + [st.cur], seedOf)
  }

  lemma {:induction false} JoinEndsWithLast(parts: seq<string>, sep: string)
    requires |parts| > 0
    ensures |parts[|parts| - 1]| <= |Join(parts, sep)|
    ensures Join(parts, sep)[|Join(parts, sep)| - |parts[|parts| - 1]|..] == parts[|parts| - 1]
  {
  }

  lemma {:induction false} JoinStartsWithFirst(parts: seq<string>, sep: string)
    requires |parts| > 0
    ensures |parts[0]| <= |Join(parts, sep)| && Join(parts, sep)[..|parts[0]|] == parts[0]
  {
    if |parts| > 1 {
      JoinStartsWithFirst(parts[..|parts| - 1], sep);
      var j := Join(parts[..|parts| - 1], sep);
      assert Join(parts, sep) == j + sep + parts[|parts| - 1];
      assert (j + sep + parts[|parts| - 1])[..|parts[0]|] == j[..|parts[0]|];
    }
  }

  /** A buffer that holds a paragraph is not blank. */
  lemma BufferNotBlank(g: Segment)
    requires GoodSegment(g) && g.paras != []
    ensures !AllSpace(SegmentText(g))
    ensures Trim(SegmentText(g)) != []
  {
    var last := g.paras[|g.paras| - 1];
    var t := SegmentText(g);
    JoinEndsWithLast(g.paras, "\n\n");
    var k := |t| - |last|;
    assert t[k..] == last;
    assert t[k] == last[0];
    TrimEmptyIff(t);
  }

  /** Appending a paragraph to a segment appends it to the text as the
      source does: `buf += (buf ? '\n\n' : '') + p`. */
  lemma AppendText(g: Segment, tp: string)
    requires GoodSegment(g) && (g.paras == [] ==> g.seed == [])
    ensures SegmentText(Segment(g.seed, g.paras + [tp]))
         == SegmentText(g) + (if SegmentText(g) != [] then "\n\n" else []) + tp
    ensures SegmentText(g) != [] <==> g.paras != []
  {
    JoinEmpty(g.paras, "\n\n");
    var ps := g.paras + [tp];
    assert ps[..|ps| - 1] == g.paras;
  }

  lemma ChainExtend(gs: seq<Segment>, g: Segment, seedOf: Segment -> string)
    requires SeedsChained(gs, seedOf) && gs != [] && g.seed == seedOf(gs[|gs| - 1])
    ensures SeedsChained(gs + [g], seedOf)
  {
    var gs' := gs + [g];
    forall i, j | 0 <= i < j < |gs'| && j == i + 1
      ensures gs'[j].seed == seedOf(gs'[i])
    {
      if j < |gs| {
        assert gs'[j] == gs[j] && gs'[i] == gs[i];
      }
    }
  }

  lemma ChainReplaceLast(gs: seq<Segment>, g: Segment, seedOf: Segment -> string)
    requires SeedsChained(gs, seedOf) && gs != [] && g.seed == gs[|gs| - 1].seed
    ensures SeedsChained(gs[..|gs| - 1] + [g], seedOf)
  {
    var gs' := gs[..|gs| - 1] + [g];
    forall i, j | 0 <= i < j < |gs'| && j == i + 1
      ensures gs'[j].seed == seedOf(gs'[i])
    {
      assert gs'[i] == gs[i];
      assert gs'[j].seed == gs[j].seed;
    }
  }

  /** One step keeps the state valid: a flushed buffer is never empty, and
      the buffers only ever receive non-empty trimmed paragraphs. */
  lemma StepValid(st: Packing, c: Candidate, seedOf: Segment -> string)
    requires Valid(st) && WellFormed(c)
    ensures Valid(Step(st, c, seedOf))
  {
    if st.cur.paras == [] {
      assert SegmentText(st.cur) == [];
    }
  }

  /** Every loop state reached from well-formed candidates is valid. */
  lemma {:induction false} PackValid(cs: seq<Candidate>, n: nat, seedOf: Segment -> string)
    requires n <= |cs| && forall i :: 0 <= i < |cs| ==> WellFormed(cs[i])
    ensures Valid(PackUpTo(cs, n, seedOf))
  {
    if n > 0 {
      PackValid(cs, n - 1, seedOf);
      StepValid(PackUpTo(cs, n - 1, seedOf), cs[n - 1], seedOf);
    }
  }

  lemma StepChained(st: Packing, c: Candidate, seedOf: Segment -> string)
    requires Chained(st, seedOf)
    ensures Chained(Step(st, c, seedOf), seedOf)
  {
    var tp := c.text;
    if !c.skip {
      var gs := st.done + [st.cur];
      if st.cur.paras != [] && |SegmentText(st.cur)| + |tp| > TargetChunkSize {
        ChainExtend(gs, Segment(seedOf(st.cur), [tp]), seedOf);
      } else {
        ChainReplaceLast(gs, Segment(st.cur.seed, st.cur.paras + [tp]), seedOf);
        assert gs[..|gs| - 1] == st.done;
      }
    }
  }

  lemma {:induction false} PackChained(cs: seq<Candidate>, n: nat, seedOf: Segment -> string)
    requires n <= |cs|
    ensures Chained(PackUpTo(cs, n, seedOf), seedOf)
  {
    if n > 0 {
      PackChained(cs, n - 1, seedOf);
      StepChained(PackUpTo(cs, n - 1, seedOf), cs[n - 1], seedOf);
    }
  }

  /** The first buffer has no seed, and every later buffer opens with the
      seed computed from the buffer flushed just before it. */
  lemma SeedsFollowOverlap(cs: seq<Candidate>, seedOf: Segment -> string)
    ensures var st := Pack(cs, seedOf);
      && (st.done + [st.cur])[0].seed == []
      && forall i :: 0 < i < |st.done| + 1 ==> (st.done + [st.cur])[i].seed == seedOf((st.done + [st.cur])[i - 1])
  {
    PackChained(cs, |cs|, seedOf);
    var gs := Pack(cs, seedOf).done + [Pack(cs, seedOf).cur];
    forall i | 0 < i < |gs|
      ensures gs[i].seed == seedOf(gs[i - 1])
    {
      var j := i - 1;
      assert j + 1 == i;
    }
  }

  /** The flush rule of the loop: a paragraph that is kept flushes the buffer
      exactly when the buffer holds text and the two lengths add up to more
      than `TargetChunkSize`; the buffer is flushed whole and the next one is
      the seed followed by the paragraph.  Otherwise the paragraph is
      appended after a blank line, and a non-empty buffer grows to at most
      `TargetChunkSize + 2` characters.  A paragraph is never split. */
  lemma FlushOnlyWhenFull(st: Packing, c: Candidate, seedOf: Segment -> string)
    requires Valid(st) && WellFormed(c) && !c.skip
    ensures var tp := c.text;
      var st' := Step(st, c, seedOf);
      if st.cur.paras != [] && |SegmentText(st.cur)| + |tp| > TargetChunkSize then
        && st'.done == st.done + [st.cur]
        && st'.cur == Segment(seedOf(st.cur), [tp])
        && SegmentText(st'.cur) == seedOf(st.cur) + tp
      else
        && st'.done == st.done
        && st'.cur.paras == st.cur.paras + [tp]
        && SegmentText(st'.cur) == SegmentText(st.cur) + (if st.cur.paras != [] then "\n\n" else []) + tp
        && (st.cur.paras != [] ==> |SegmentText(st'.cur)| <= TargetChunkSize + 2)
  {
    var tp := c.text;
    AppendText(st.cur, tp);
    if st.cur.paras != [] {
      BufferNotBlank(st.cur);
    } else {
      assert SegmentText(st.cur) == [];
    }
  }

  /** Reading the buffers in order reads the flushed ones, then the current one. */
  lemma FlattenAll(st: Packing)
    ensures Flatten(AllSegments(st)) == Flatten(st.done) + st.cur.paras
  {
    if st.cur.paras == [] {
      assert AllSegments(st) == st.done;
    } else {
      var gs := AllSegments(st);
      assert gs[..|gs| - 1] == st.done;
    }
  }

  /** One step adds the paragraph it takes at the end of the buffers'
      paragraphs, and a skipped paragraph changes nothing. */
  lemma StepKeepsParagraphs(st: Packing, c: Candidate, seedOf: Segment -> string)
    ensures Flatten(AllSegments(Step(st, c, seedOf)))
         == Flatten(AllSegments(st)) + Taken(c)
  {
    if !c.skip {
      if st.cur.paras != [] && |SegmentText(st.cur)| + |c.text| > TargetChunkSize {
        FlushKeepsParagraphs(st, c.text, seedOf(st.cur));
      } else {
        AppendKeepsParagraphs(st, c.text);
      }
    }
  }

  /** Flushing the buffer and opening a new one with a paragraph adds that
      paragraph at the end. */
  lemma FlushKeepsParagraphs(st: Packing, text: string, seed: string)
    ensures Flatten(AllSegments(Packing(st.done + [st.cur], Segment(seed, [text]))))
         == Flatten(AllSegments(st)) + [text]
  {
    var st' := Packing(st.done + [st.cur], Segment(seed, [text]));
    FlattenAll(st);
    FlattenAll(st');
    var gs := st'.done;
    assert gs[..|gs| - 1] == st.done;
  }

  /** Adding a paragraph to the buffer adds it at the end. */
  lemma AppendKeepsParagraphs(st: Packing, text: string)
    ensures Flatten(AllSegments(Packing(st.done, Segment(st.cur.seed, st.cur.paras + [text]))))
         == Flatten(AllSegments(st)) + [text]
  {
    FlattenAll(st);
    FlattenAll(Packing(st.done, Segment(st.cur.seed, st.cur.paras + [text])));
  }

  lemma {:induction false} ParagraphsInOrderUpTo(cs: seq<Candidate>, n: nat, seedOf: Segment -> string)
    requires n <= |cs|
    ensures Flatten(AllSegments(PackUpTo(cs, n, seedOf))) == AcceptedUpTo(cs, n)
  {
    if n == 0 {
      assert PackUpTo(cs, 0, seedOf) == Start;
      assert AllSegments(Start) == [];
    } else {
      ParagraphsInOrderUpTo(cs, n - 1, seedOf);
      ParagraphsInOrderStep(cs, n, seedOf);
    }
  }

  /** The induction step: if the first `n - 1` candidates are packed in
      order, so are the first `n`. */
  lemma ParagraphsInOrderStep(cs: seq<Candidate>, n: nat, seedOf: Segment -> string)
    requires 0 < n <= |cs|
    requires Flatten(AllSegments(PackUpTo(cs, n - 1, seedOf))) == AcceptedUpTo(cs, n - 1)
    ensures Flatten(AllSegments(PackUpTo(cs, n, seedOf))) == AcceptedUpTo(cs, n)
  {
    StepKeepsParagraphs(PackUpTo(cs, n - 1, seedOf), cs[n - 1], seedOf);
  }

  /** Every paragraph the loop takes lands, whole and trimmed, in exactly one
      buffer, and reading the buffers in order gives the taken paragraphs in
      input order. */
  lemma ParagraphsInOrder(ps: seq<string>, seedOf: Segment -> string)
    ensures Flatten(AllSegments(Pack(Candidates(ps), seedOf))) == Accepted(ps)
  {
    ParagraphsInOrderUpTo(Candidates(ps), |ps|, seedOf);
  }

  /** A seed rule whose seeds never start with whitespace. */
  ghost predicate SeedsStartClean(seedOf: Segment -> string) {
    forall g :: seedOf(g) == [] || !IsSpace(seedOf(g)[0])
  }

  /** An overlap seed is empty or starts with the first letter of a sentence. */
  lemma SeedStartsWithSentence(g: Segment)
    ensures NextSeed(g) == [] || !IsSpace(NextSeed(g)[0])
  {
    var t := SegmentText(g);
    var sents := Sentences(t);
    assert NextSeed(g) == SeedText(OverlapSeed(sents));
    SeedTextStartsClean(sents);
  }

  /** The overlap text of sentences that are trimmed and not empty starts
      with the first letter of its first sentence. */
  lemma SeedTextStartsClean(sents: seq<string>)
    requires forall i :: 0 <= i < |sents| ==> |sents[i]| > MinSentenceLength && IsTrimmed(sents[i])
    ensures SeedText(OverlapSeed(sents)) == [] || !IsSpace(SeedText(OverlapSeed(sents))[0])
  {
    var seed := OverlapSeed(sents);
    OverlapSeedIsLongestFit(sents);
    if |seed| > 0 {
      var first := seed[0];
      assert first == sents[|sents| - |seed|];
      assert |first| > 0 && !IsSpace(first[0]);
      JoinStartsWithFirst(seed, " ");
      var j := Join(seed, " ");
      assert j[0] == first[0];
      assert SeedText(seed) == j + " ";
      assert SeedText(seed)[0] == j[0];
    }
  }

  lemma NextSeedStartsClean()
    ensures SeedsStartClean(NextSeed)
  {
    forall g ensures NextSeed(g) == [] || !IsSpace(NextSeed(g)[0]) {
      SeedStartsWithSentence(g);
    }
  }

  /** A buffer's text has no surrounding whitespace: it starts with the first
      seed sentence or the first paragraph and ends with its last paragraph. */
  lemma SegmentTextTrimmed(g: Segment)
    requires GoodSegment(g) && g.paras != []
    requires g.seed == [] || !IsSpace(g.seed[0])
    ensures IsTrimmed(SegmentText(g))
  {
    var t := SegmentText(g);
    JoinEndsWithLast(g.paras, "\n\n");
    var last := g.paras[|g.paras| - 1];
    assert t[|t| - 1] == last[|last| - 1];
    if g.seed == [] {
      JoinStartsWithFirst(g.paras, "\n\n");
      assert t[0] == g.paras[0][0];
    }
  }

  /** Every buffer of a valid state has no surrounding whitespace. */
  lemma SegmentsTrimmed(st: Packing, seedOf: Segment -> string)
    requires Valid(st) && Chained(st, seedOf) && SeedsStartClean(seedOf)
    ensures forall i :: 0 <= i < |AllSegments(st)| ==> IsTrimmed(SegmentText(AllSegments(st)[i]))
  {
    var gs := AllSegments(st);
    var all := st.done + [st.cur];
    forall i | 0 <= i < |gs|
      ensures IsTrimmed(SegmentText(gs[i]))
    {
      assert gs[i] == all[i];
      assert gs[i] in st.done || gs[i] == st.cur;
      if i > 0 {
        var j := i - 1;
        assert j + 1 == i;
        assert all[i].seed == seedOf(all[j]);
      }
      SegmentTextTrimmed(gs[i]);
    }
  }

  /** The trimmed texts of flushed buffers. */
  function FlushedTexts(gs: seq<Segment>): (r: seq<string>)
    ensures |r| == |gs| && forall i {:trigger r[i]} :: 0 <= i < |gs| ==> r[i] == Trim(SegmentText(gs[i]))
  {
    if gs == [] then [] else FlushedTexts(gs[..|gs| - 1]) + [Trim(SegmentText(gs[|gs| - 1]))]
  }

  /** The chunks of a loop state: every flushed buffer trimmed, then the
      current buffer trimmed if it is not blank. */
  function ChunksOf(st: Packing): seq<string> {
    var flushed := FlushedTexts(st.done);
    var last := Trim(SegmentText(st.cur));
    if last != [] then flushed + [last] else flushed
  }

  /** Every chunk is trimmed: `trim()` is applied to each on its way out. */
  lemma ChunksTrimmed(st: Packing)
    ensures forall c :: c in ChunksOf(st) ==> IsTrimmed(c)
  {
    var flushed := FlushedTexts(st.done);
    var last := Trim(SegmentText(st.cur));
    forall c | c in ChunksOf(st)
      ensures IsTrimmed(c)
    {
      if c in flushed {
        var i :| 0 <= i < |flushed| && flushed[i] == c;
        assert c == Trim(SegmentText(st.done[i]));
      } else {
        assert c == last;
      }
    }
  }

  /** The chunks before the size and boilerplate filter. */
  function RawChunks(ps: seq<string>): seq<string> {
    ChunksOf(Pack(Candidates(ps), NextSeed))
  }

  /** Each chunk of a valid state is exactly one buffer's seed followed by
      its whole paragraphs joined by blank lines, one chunk per buffer, in
      order. */
  lemma ChunksAreWholeSegments(st: Packing, seedOf: Segment -> string)
    requires Valid(st) && Chained(st, seedOf) && SeedsStartClean(seedOf)
    ensures |ChunksOf(st)| == |AllSegments(st)|
    ensures forall i :: 0 <= i < |ChunksOf(st)| ==>
      ChunksOf(st)[i] == AllSegments(st)[i].seed + Join(AllSegments(st)[i].paras, "\n\n")
  {
    SegmentsTrimmed(st, seedOf);
    ChunksOfTrimmedSegments(st);
  }

  /** The same, once every buffer is known to be trimmed already. */
  lemma ChunksOfTrimmedSegments(st: Packing)
    requires Valid(st)
    requires forall i :: 0 <= i < |AllSegments(st)| ==> IsTrimmed(SegmentText(AllSegments(st)[i]))
    ensures |ChunksOf(st)| == |AllSegments(st)|
    ensures forall i :: 0 <= i < |ChunksOf(st)| ==> ChunksOf(st)[i] == SegmentText(AllSegments(st)[i])
  {
    var gs := AllSegments(st);
    var r := ChunksOf(st);
    var flushed := FlushedTexts(st.done);
    if st.cur.paras == [] {
      assert SegmentText(st.cur) == [];
      assert r == flushed && gs == [];
    } else {
      BufferNotBlank(st.cur);
      assert gs == st.done + [st.cur];
      forall i | 0 <= i < |st.done|
        ensures IsTrimmed(SegmentText(st.done[i]))
      {
        assert gs[i] == st.done[i];
      }
      FlushedTextsOfTrimmed(st.done);
      assert gs[|st.done|] == st.cur;
      TrimOfTrimmed(SegmentText(st.cur));
      assert r == flushed + [SegmentText(st.cur)];
    }
  }

  /** Flushing a buffer that is already trimmed keeps its text as it is. */
  lemma FlushedTextsOfTrimmed(gs: seq<Segment>)
    requires forall i :: 0 <= i < |gs| ==> IsTrimmed(SegmentText(gs[i]))
    ensures forall i :: 0 <= i < |gs| ==> FlushedTexts(gs)[i] == SegmentText(gs[i])
  {
    forall i | 0 <= i < |gs|
      ensures FlushedTexts(gs)[i] == SegmentText(gs[i])
    {
      TrimOfTrimmed(SegmentText(gs[i]));
    }
  }

  /** The chunks of a state: the flushed texts, then the trimmed buffer if
      it is not blank. */
  lemma ChunksOfShape(st: Packing)
    ensures var last := Trim(SegmentText(st.cur));
      && |ChunksOf(st)| == |st.done| + (if last != [] then 1 else 0)
      && ChunksOf(st)[..|st.done|] == FlushedTexts(st.done)
      && (last != [] ==> ChunksOf(st)[|st.done|] == last)
  {
    var flushed := FlushedTexts(st.done);
    var last := Trim(SegmentText(st.cur));
    if last != [] {
      assert ChunksOf(st) == flushed + [last];
      assert (flushed + [last])[..|flushed|] == flushed;
    } else {
      assert ChunksOf(st) == flushed;
    }
  }

  /** The chunks of a text before the filter are its buffers, each one a
      seed and whole paragraphs. */
  lemma RawChunksAreWholeSegments(ps: seq<string>)
    ensures var st := Pack(Candidates(ps), NextSeed);
      && |RawChunks(ps)| == |AllSegments(st)|
      && forall i :: 0 <= i < |RawChunks(ps)| ==>
           RawChunks(ps)[i] == AllSegments(st)[i].seed + Join(AllSegments(st)[i].paras, "\n\n")
  {
    var cs := Candidates(ps);
    PackValid(cs, |cs|, NextSeed);
    PackChained(cs, |cs|, NextSeed);
    NextSeedStartsClean();
    ChunksAreWholeSegments(Pack(cs, NextSeed), NextSeed);
  }

  // ---------------------------------------------------------------------
  // Post-filter
  // ---------------------------------------------------------------------

  /** `/(ATTN:|P\.O\.|LLC|LLP|STREET|AVENUE|BOULEVARD)/gi`, lower-cased. */
  const BoilerplateMarkers: seq<string> := ["attn:", "p.o.", "llc", "llp", "street", "avenue", "boulevard"]

  function MarkerCount(chunk: string): nat {
    CountMatches(ToLower(chunk), BoilerplateMarkers)
  }

  /** `chunk.split(' ').length`. */
  function WordCount(chunk: string): nat {
    PieceCount(chunk, ' ')
  }

  /** Long enough, and fewer than one marker per ten words: the source's
      `markers / words < 0.1`, exact for any realistic length. */
  predicate Viable(chunk: string) {
    |chunk| >= MinChunkLength && 10 * MarkerCount(chunk) < WordCount(chunk)
  }

  /** Keeps the viable chunks: every viable chunk and no other, in order,
      each as often as it occurs. */
  function PostFilter(chunks: seq<string>): (r: seq<string>)
    ensures |r| <= |chunks|
    ensures forall i :: 0 <= i < |r| ==> Viable(r[i]) && r[i] in chunks
    ensures forall c :: c in chunks && Viable(c) ==> c in r
    ensures Selects(r, chunks, Viable)
  {
    FilterMembers(chunks, Viable);
    FilterSelects(chunks, Viable);
    Filter(chunks, Viable)
  }

  /** `createBetterChunks(text)`: the viable raw chunks of the cleaned
      text's paragraphs, in document order, each trimmed. */
  function BetterChunks(text: string): (r: seq<string>)
    ensures forall i :: 0 <= i < |r| ==> IsTrimmed(r[i]) && Viable(r[i])
    ensures Selects(r, RawChunks(Paragraphs(CleanText(text))), Viable)
  {
    var raw := RawChunks(Paragraphs(CleanText(text)));
    ChunksTrimmed(Pack(Candidates(Paragraphs(CleanText(text))), NextSeed));
    PostFilter(raw)
  }

  /** `Step` restated on the buffer text the source keeps. */
  lemma StepOnBuffer(st: Packing, c: Candidate)
    requires Valid(st) && WellFormed(c)
    ensures c.skip ==> Step(st, c, NextSeed) == st
    ensures !c.skip ==>
      var buf := SegmentText(st.cur);
      var tp := c.text;
      var st' := Step(st, c, NextSeed);
      if |buf| + |tp| > TargetChunkSize && Trim(buf) != [] then
        && FlushedTexts(st'.done) == FlushedTexts(st.done) + [Trim(buf)]
        && SegmentText(st'.cur) == SeedText(OverlapSeed(Sentences(buf))) + tp
      else
        && st'.done == st.done
        && SegmentText(st'.cur) == buf + (if buf != [] then "\n\n" else []) + tp
  {
    if c.skip {
      return;
    }
    FlushOnlyWhenFull(st, c, NextSeed);
    var st' := Step(st, c, NextSeed);
    if st.cur.paras != [] {
      BufferNotBlank(st.cur);
    }
    assert st'.done == st.done || st'.done == st.done + [st.cur];
    if st'.done == st.done + [st.cur] {
      assert FlushedTexts(st'.done)[..|st.done|] == FlushedTexts(st.done);
    }
  }

  /** The sentences of the flushed buffer that open the next one, joined by
      spaces and followed by a space when there are any. */
  method OverlapText(buffer: string) returns (overlap: string)
    ensures overlap == SeedText(OverlapSeed(Sentences(buffer)))
  {
    var sentences := Sentences(buffer);
    var overlapSentences := OverlapSentences(sentences);
    overlap := Join(overlapSentences, " ") + (if |overlapSentences| > 0 then " " else []);
  }

  /** One pass of the source's paragraph loop on its string buffer: the
      three `continue`s, the flush with the overlap walk, or the append. */
  method AddParagraph(ghost st: Packing, chunks: seq<string>, currentChunk: string, paragraph: string)
    returns (chunks': seq<string>, currentChunk': string)
    requires Valid(st) && chunks == FlushedTexts(st.done) && currentChunk == SegmentText(st.cur)
    ensures chunks' == FlushedTexts(Step(st, Classify(paragraph), NextSeed).done)
    ensures currentChunk' == SegmentText(Step(st, Classify(paragraph), NextSeed).cur)
  {
    chunks', currentChunk' := chunks, currentChunk;
    var trimmedParagraph := Trim(paragraph);
    StepOnBuffer(st, Classify(paragraph));
    if IsAddressParagraph(trimmedParagraph) || IsFirmParagraph(trimmedParagraph)
       || |trimmedParagraph| < MinPackedParagraph {
      return;
    }
    if |currentChunk| + |trimmedParagraph| > TargetChunkSize && Trim(currentChunk) != [] {
      chunks' := chunks + [Trim(currentChunk)];
      var overlap := OverlapText(currentChunk);
      currentChunk' := overlap + trimmedParagraph;
    } else {
      currentChunk' := currentChunk + (if currentChunk != [] then "\n\n" else []) + trimmedParagraph;
    }
  }

  /** The string buffers of the source loop agree with the loop state after
      the first `i` candidates. */
  ghost predicate Tracks(cs: seq<Candidate>, i: nat, st: Packing, chunks: seq<string>, currentChunk: string) {
    && i <= |cs|
    && st == PackUpTo(cs, i, NextSeed)
    && Valid(st)
    && chunks == FlushedTexts(st.done)
    && currentChunk == SegmentText(st.cur)
  }

  /** The body of the paragraph loop, with the loop state it advances. */
  method PackNext(ghost cs: seq<Candidate>, ghost i: nat, ghost st: Packing,
                  chunks: seq<string>, currentChunk: string, paragraph: string)
    returns (chunks': seq<string>, currentChunk': string, ghost st': Packing)
    requires i < |cs| && cs[i] == Classify(paragraph) && Tracks(cs, i, st, chunks, currentChunk)
    ensures Tracks(cs, i + 1, st', chunks', currentChunk')
  {
    StepValid(st, cs[i], NextSeed);
    chunks', currentChunk' := AddParagraph(st, chunks, currentChunk, paragraph);
    st' := Step(st, cs[i], NextSeed);
  }

  /** The source's loop over the paragraphs: the flushed chunks so far and
      the current buffer after the last paragraph. */
  method PackParagraphs(paragraphs: seq<string>) returns (chunks: seq<string>, currentChunk: string, ghost st: Packing)
    ensures st == Pack(Candidates(paragraphs), NextSeed)
    ensures chunks == FlushedTexts(Pack(Candidates(paragraphs), NextSeed).done)
    ensures currentChunk == SegmentText(Pack(Candidates(paragraphs), NextSeed).cur)
  {
    chunks := [];
    currentChunk := [];
    st := Start;
    ghost var cs := Candidates(paragraphs);
    for i := 0 to |paragraphs|
      invariant Tracks(cs, i, st, chunks, currentChunk)
    {
      chunks, currentChunk, st := PackNext(cs, i, st, chunks, currentChunk, paragraphs[i]);
    }
  }

  /** After the loop: push the last buffer if it is not blank, then filter. */
  method FinishChunks(ghost st: Packing, chunks: seq<string>, currentChunk: string) returns (r: seq<string>)
    requires chunks == FlushedTexts(st.done) && currentChunk == SegmentText(st.cur)
    ensures r == PostFilter(ChunksOf(st))
  {
    var all := chunks;
    if Trim(currentChunk) != [] {
      all := all + [Trim(currentChunk)];
    }
    r := PostFilter(all);
  }

  /** `createBetterChunks`: clean, split into paragraphs, pack. */
  method CreateBetterChunks(text: string) returns (chunks: seq<string>)
    ensures chunks == BetterChunks(text)
    ensures forall i :: 0 <= i < |chunks| ==> IsTrimmed(chunks[i]) && |chunks[i]| >= MinChunkLength
  {
    var cleaned := CleanText(text);
    var paragraphs := Paragraphs(cleaned);
    var flushed, currentChunk, st := PackParagraphs(paragraphs);
    chunks := FinishChunks(st, flushed, currentChunk);
  }

  // ---------------------------------------------------------------------
  // The upload guards of handleUpload
  // ---------------------------------------------------------------------

  /** A dropped PDF: its name, the text the PDF library extracts from it (or
      `None` when extraction throws), and whether the upload service accepts
      its chunks. */
  datatype PdfFile = PdfFile(name: string, extracted: Option<string>, serviceAccepts: bool)

  datatype UploadError =
    | ExtractionFailed(file: string)
    | TooLittleText(file: string)
    | NoChunks(file: string)
    | ServiceFailed(file: string)

  /** One call of `fileService.uploadDocumentChunks`. */
  datatype UploadRequest = UploadRequest(fileName: string, chunks: seq<string>)

  /** The checks of one file before anything of it is sent. */
  function PrepareFile(f: PdfFile): (r: Result<UploadRequest, UploadError>)
  {
    match f.extracted
    case None => Failure(ExtractionFailed(f.name))
    case Some(text) =>
      if |text| < MinExtractedLength then Failure(TooLittleText(f.name))
      else
        var chunks := BetterChunks(text);
        if chunks == [] then Failure(NoChunks(f.name))
        else Success(UploadRequest(f.name, chunks))
  }

  /** A prepared request carries the chunks of a text of at least
      `MinExtractedLength` characters and at least one chunk; short text and
      an empty chunk list are the two rejections after extraction. */
  lemma PrepareFileGuards(f: PdfFile)
    ensures PrepareFile(f).Success? <==>
      f.extracted.Some? && |f.extracted.value| >= MinExtractedLength && BetterChunks(f.extracted.value) != []
    ensures PrepareFile(f).Success? ==>
      PrepareFile(f).value == UploadRequest(f.name, BetterChunks(f.extracted.value))
  {
  }

  /** A file after its checks, and whether the service accepts its upload. */
  datatype Prepared = Prepared(result: Result<UploadRequest, UploadError>, accepted: bool)

  function PrepareAll(files: seq<PdfFile>): (r: seq<Prepared>)
    ensures |r| == |files|
    ensures forall k :: 0 <= k < |files| ==> r[k] == Prepared(PrepareFile(files[k]), files[k].serviceAccepts)
  {
    seq(|files|, k requires 0 <= k < |files| => Prepared(PrepareFile(files[k]), files[k].serviceAccepts))
  }

  /** What the upload loop sends and the error it ends with. */
  datatype UploadOutcome = UploadOutcome(sent: seq<UploadRequest>, error: Option<UploadError>)

  /** The upload loop from file `i` on: requests in file order until the
      first failure. */
  function UploadFrom(ps: seq<Prepared>, i: nat): UploadOutcome
    requires i <= |ps|
    decreases |ps| - i
  {
    if i == |ps| then UploadOutcome([], None)
    else match ps[i].result
      case Failure(e) => UploadOutcome([], Some(e))
      case Success(req) =>
        if !ps[i].accepted then UploadOutcome([req], Some(ServiceFailed(req.fileName)))
        else
          var rest := UploadFrom(ps, i + 1);
          UploadOutcome([req] + rest.sent, rest.error)
  }

  /** The upload loop over all files. */
  function UploadAll(files: seq<PdfFile>): UploadOutcome {
    UploadFrom(PrepareAll(files), 0)
  }

  /** Requests go out in file order, one per file, until the first file that
      fails: a file that fails its checks sends nothing and its error ends
      the loop; a file the service refuses has been sent and ends the loop;
      the upload succeeds exactly when every file passes and is accepted. */
  lemma {:induction false} UploadStopsAtFirstFailure(ps: seq<Prepared>, i: nat)
    requires i <= |ps|
    ensures var o := UploadFrom(ps, i);
      && |o.sent| <= |ps| - i
      && (forall k :: 0 <= k < |o.sent| ==> ps[i + k].result == Success(o.sent[k]))
      && (o.error.None? <==> forall k :: i <= k < |ps| ==> ps[k].result.Success? && ps[k].accepted)
      && (o.error.None? ==> |o.sent| == |ps| - i)
      && (o.error.Some? ==>
            || (|o.sent| < |ps| - i && ps[i + |o.sent|].result == Failure(o.error.value))
            || (0 < |o.sent| && !ps[i + |o.sent| - 1].accepted
                && o.error.value == ServiceFailed(o.sent[|o.sent| - 1].fileName)))
    decreases |ps| - i
  {
    if i < |ps| {
      UploadStopsAtFirstFailure(ps, i + 1);
      var o := UploadFrom(ps, i);
      var rest := UploadFrom(ps, i + 1);
      match ps[i].result
      case Failure(e) =>
      case Success(req) =>
        if ps[i].accepted {
          assert o.sent == [req] + rest.sent;
          assert forall k :: 1 <= k < |o.sent| ==> o.sent[k] == rest.sent[k - 1] && ps[i + k] == ps[i + 1 + (k - 1)];
        }
    }
  }

  /** Every request sent comes from a file that passed its checks, in file
      order. */
  lemma SentRequestsArePrepared(files: seq<PdfFile>)
    ensures |UploadAll(files).sent| <= |files|
    ensures forall k :: 0 <= k < |UploadAll(files).sent| ==> PrepareFile(files[k]) == Success(UploadAll(files).sent[k])
  {
    var ps := PrepareAll(files);
    UploadStopsAtFirstFailure(ps, 0);
    var o := UploadFrom(ps, 0);
    assert UploadAll(files) == o;
    forall k | 0 <= k < |o.sent|
      ensures PrepareFile(files[k]) == Success(o.sent[k])
    {
      assert ps[k].result == PrepareFile(files[k]);
    }
  }

  /** The checks of one file as the loop body makes them. */
  method PrepareUpload(file: PdfFile) returns (r: Result<UploadRequest, UploadError>)
    ensures r == PrepareFile(file)
    ensures r.Success? ==> r.value.fileName == file.name
  {
    if file.extracted.None? {
      return Failure(ExtractionFailed(file.name));
    }
    var text := file.extracted.value;
    if |text| < MinExtractedLength {
      return Failure(TooLittleText(file.name));
    }
    var chunks := CreateBetterChunks(text);
    if |chunks| == 0 {
      return Failure(NoChunks(file.name));
    }
    return Success(UploadRequest(file.name, chunks));
  }

  /** `ps` holds the checks of each of `files`, in order. */
  predicate PreparedFiles(files: seq<PdfFile>, ps: seq<Prepared>) {
    && |ps| == |files|
    && forall k {:trigger PrepareFile(files[k])} :: 0 <= k < |files| ==>
         ps[k] == Prepared(PrepareFile(files[k]), files[k].serviceAccepts)
  }

  /** The checks of the `i`-th file. */
  method PrepareNext(files: seq<PdfFile>, ghost ps: seq<Prepared>, i: nat) returns (r: Result<UploadRequest, UploadError>)
    requires PreparedFiles(files, ps) && i < |files|
    ensures ps[i] == Prepared(r, files[i].serviceAccepts)
    ensures r.Success? ==> r.value.fileName == files[i].name
  {
    r := PrepareUpload(files[i]);
  }

  /** The upload loop of `handleUpload`: each file's checks, then its upload;
      the first failure ends the loop and earlier uploads stay done. */
  method UploadLoop(files: seq<PdfFile>, ghost ps: seq<Prepared>) returns (sent: seq<UploadRequest>, error: Option<UploadError>)
    requires PreparedFiles(files, ps)
    ensures UploadOutcome(sent, error) == UploadFrom(ps, 0)
  {
    sent, error := [], None;
    var i := 0;
    while i < |files|
      invariant 0 <= i <= |files|
      invariant UploadFrom(ps, 0) == UploadOutcome(sent + UploadFrom(ps, i).sent, UploadFrom(ps, i).error)
      invariant error.None?
    {
      var prepared := PrepareNext(files, ps, i);
      if prepared.Failure? {
        assert UploadFrom(ps, i) == UploadOutcome([], Some(prepared.error));
        error := Some(prepared.error);
        break;
      }
      var request := prepared.value;
      if !files[i].serviceAccepts {
        assert UploadFrom(ps, i) == UploadOutcome([request], Some(ServiceFailed(files[i].name)));
        sent := sent + [request];
        error := Some(ServiceFailed(files[i].name));
        break;
      }
      var rest := UploadFrom(ps, i + 1);
      assert UploadFrom(ps, i) == UploadOutcome([request] + rest.sent, rest.error);
      assert sent + ([request] + rest.sent) == (sent + [request]) + rest.sent;
      sent := sent + [request];
      i := i + 1;
    }
    assert i == |files| ==> UploadFrom(ps, i) == UploadOutcome([], None);
  }

  /** `handleUpload`: an empty file list does nothing; otherwise the files
      are uploaded in order until the first failure, and on success the file
      list is cleared. */
  method HandleUpload(files: seq<PdfFile>) returns (sent: seq<UploadRequest>, error: Option<UploadError>, remaining: seq<PdfFile>)
    ensures UploadOutcome(sent, error) == UploadAll(files)
    ensures remaining == if error.None? then [] else files
  {
    sent, error, remaining := [], None, files;
    if |files| == 0 {
      return;
    }
    ghost var ps := PrepareAll(files);
    sent, error := UploadLoop(files, ps);
    if error.None? {
      remaining := [];
    }
  }
}
