/** The fixed regular expressions of the chunker and of the retrieval
    filter, written as small matchers.  Each matcher works at one position
    and looks only at the text from there on, which is how a regex without
    anchors or look-behind is tried by `replace`, `split` and `match` with
    the global flag.  Case-insensitive patterns are matched on text that has
    been ASCII-lower-cased with `Text.ToLower`. */
module Patterns {
  import opened Text
  import opened Wrappers

  /** One step of a pattern: a literal character, `\s`, `\d`, or a greedy
      `\d+`. */
  datatype Elem = Lit(c: char) | Space | Digit | Digits

  function Lits(s: string): (es: seq<Elem>)
    ensures |es| == |s|
  {
    seq(|s|, i requires 0 <= i < |s| => Lit(s[i]))
  }

  function Digits5(): seq<Elem> {
    [Digit, Digit, Digit, Digit, Digit]
  }

  /** Length of the run of ASCII digits at the front of `s`. */
  function DigitRun(s: string): (n: nat)
    ensures n <= |s|
    ensures forall i :: 0 <= i < n ==> IsDigit(s[i])
    ensures n < |s| ==> !IsDigit(s[n])
  {
    if s != [] && IsDigit(s[0]) then 1 + DigitRun(s[1..]) else 0
  }

  /** Length of the text at the front of `s` that `es` matches, if any.
      `Digits` takes every digit: in each pattern here the step after it
      cannot begin with a digit, so backtracking would find nothing more. */
  function MatchElems(s: string, es: seq<Elem>): (r: Option<nat>)
    ensures r.Some? ==> r.value <= |s|
    ensures r.Some? && es != [] ==> r.value > 0
    decreases |es|
  {
    if es == [] then Some(0)
    else
      var n: nat := match es[0]
        case Lit(c) => if s != [] && s[0] == c then 1 else 0
        case Space => if s != [] && IsSpace(s[0]) then 1 else 0
        case Digit => if s != [] && IsDigit(s[0]) then 1 else 0
        case Digits => DigitRun(s);
      if n == 0 then None
      else match MatchElems(s[n..], es[1..])
        case None => None
        case Some(m) => Some(n + m)
  }

  /** `head` alone, or `head.*?tail`: the lazy middle takes as few
      characters as it can and never a line terminator. */
  datatype Pattern = Pattern(head: seq<Elem>, tail: Option<seq<Elem>>)

  /** The lazy search for `tail` from position `k` on. */
  function LazyScan(s: string, k: nat, tail: seq<Elem>): (r: Option<nat>)
    requires k <= |s|
    ensures r.Some? ==> k <= r.value <= |s|
    decreases |s| - k
  {
    match MatchElems(s[k..], tail)
    case Some(t) => Some(k + t)
    case None =>
      if k < |s| && !IsLineTerminator(s[k]) then LazyScan(s, k + 1, tail) else None
  }

  /** Length of the match of `p` at the front of `s`, if any. */
  function MatchAt(s: string, p: Pattern): (r: Option<nat>)
    ensures r.Some? ==> r.value <= |s|
  {
    match MatchElems(s, p.head)
    case None => None
    case Some(h) =>
      match p.tail
      case None => Some(h)
      case Some(tail) => LazyScan(s, h, tail)
  }

  /** `s.replace(p, '')` with the global flag: every match, found left to
      right and not overlapping, is deleted. */
  function DeleteAll(s: string, p: Pattern): (r: string)
    ensures |r| <= |s|
    ensures IsSubsequence(r, s)
    decreases |s|
  {
    if s == [] then []
    else match MatchAt(s, p)
      case Some(m) =>
        if m > 0 then
          var r := DeleteAll(s[m..], p);
          SubsequenceSkip(r, s, m);
          r
        else
          KeepFirst(s, DeleteAll(s[1..], p))
      case None =>
        KeepFirst(s, DeleteAll(s[1..], p))
  }

  /** `[s[0]] + r`, where `r` comes from the rest of `s`. */
  function KeepFirst(s: string, r: string): (k: string)
    requires s != [] && |r| <= |s| - 1 && IsSubsequence(r, s[1..])
    ensures |k| <= |s| && IsSubsequence(k, s) && k == [s[0]] + r
  {
    SubsequenceCons(s[0], r, s[1..]);
    assert [s[0]] + s[1..] == s;
    [s[0]] + r
  }

  /** Number of line feeds at the front of `s`. */
  function NewlineRun(s: string): (n: nat)
    ensures n <= |s|
    ensures forall i :: 0 <= i < n ==> s[i] == '\n'
    ensures n < |s| ==> s[n] != '\n'
  {
    if s != [] && s[0] == '\n' then 1 + NewlineRun(s[1..]) else 0
  }

  /** No three line feeds in a row. */
  predicate NoTripleNewline(s: string) {
    forall i :: 0 <= i && i + 2 < |s| ==> !(s[i] == '\n' && s[i + 1] == '\n' && s[i + 2] == '\n')
  }

  lemma {:induction false} NewlinesThenOther(pre: string, rest: string)
    requires |pre| <= 2 && forall i :: 0 <= i < |pre| ==> pre[i] == '\n'
    requires NoTripleNewline(rest) && (rest == [] || rest[0] != '\n')
    ensures NoTripleNewline(pre + rest)
  {
    var s := pre + rest;
    forall i | 0 <= i && i + 2 < |s|
      ensures !(s[i] == '\n' && s[i + 1] == '\n' && s[i + 2] == '\n')
    {
      if i >= |pre| {
        assert s[i] == rest[i - |pre|] && s[i + 1] == rest[i - |pre| + 1] && s[i + 2] == rest[i - |pre| + 2];
      } else if i + 1 == |pre| {
        assert s[i + 1] == rest[0];
      } else {
        assert s[i + 2] == rest[0];
      }
    }
  }

  /** `s.replace(/\n{3,}/g, '\n\n')`: every run of three or more line feeds
      becomes exactly two; shorter runs are kept. */
  function CollapseNewlines(s: string): (r: string)
    ensures |r| <= |s|
    ensures IsSubsequence(r, s)
    ensures NoTripleNewline(r)
    ensures (r != [] && r[0] == '\n') <==> (s != [] && s[0] == '\n')
    decreases |s|
  {
    if s == [] then []
    else
      var n := NewlineRun(s);
      if n == 0 then
        var rest := CollapseNewlines(s[1..]);
        var r := KeepFirst(s, rest);
        ConsKeepsNoTripleNewline(s[0], rest);
        r
      else
        var rest := CollapseNewlines(s[n..]);
        var pre := if n < 3 then s[..n] else "\n\n";
        NewlinesThenOther(pre, rest);
        RunThenRestIsSubsequence(s, n, rest);
        pre + rest
  }

  /** A character other than a line feed in front cannot make three in a row. */
  lemma ConsKeepsNoTripleNewline(c: char, rest: string)
    requires c != '\n' && NoTripleNewline(rest)
    ensures NoTripleNewline([c] + rest)
  {
    var r := [c] + rest;
    forall i | 0 <= i && i + 2 < |r|
      ensures !(r[i] == '\n' && r[i + 1] == '\n' && r[i + 2] == '\n')
    {
      if i > 0 { assert r[i] == rest[i - 1] && r[i + 1] == rest[i] && r[i + 2] == rest[i + 1]; }
    }
  }

  /** A leading run of `n` line feeds, kept whole when shorter than three and
      cut to two otherwise, followed by a subsequence of the rest, is a
      subsequence of the whole. */
  lemma RunThenRestIsSubsequence(s: string, n: nat, rest: string)
    requires 0 < n <= |s| && forall i :: 0 <= i < n ==> s[i] == '\n'
    requires IsSubsequence(rest, s[n..])
    ensures IsSubsequence((if n < 3 then s[..n] else "\n\n") + rest, s)
  {
    if n < 3 {
      CollapsePrefix(s[..n], rest, s[n..]);
      assert s[..n] + s[n..] == s;
    } else {
      CollapsePrefix("\n\n", rest, s[n..]);
      assert "\n\n" + s[n..] == s[n - 2..];
      SubsequenceSkip("\n\n" + rest, s, n - 2);
    }
  }

  /** A common prefix can be added to both sides of the subsequence order. */
  lemma {:induction false} CollapsePrefix(pre: string, a: string, b: string)
    requires IsSubsequence(a, b)
    ensures IsSubsequence(pre + a, pre + b)
    decreases |pre|
  {
    if pre != [] {
      CollapsePrefix(pre[1..], a, b);
      SubsequenceCons(pre[0], pre[1..] + a, pre[1..] + b);
      assert [pre[0]] + (pre[1..] + a) == pre + a;
      assert [pre[0]] + (pre[1..] + b) == pre + b;
    } else {
      assert pre + a == a && pre + b == b;
    }
  }

  lemma {:induction false} NoTripleNewlineSlice(s: string, i: nat, j: nat)
    requires i <= j <= |s| && NoTripleNewline(s)
    ensures NoTripleNewline(s[i..j])
  {
    var t := s[i..j];
    forall k | 0 <= k && k + 2 < |t|
      ensures !(t[k] == '\n' && t[k + 1] == '\n' && t[k + 2] == '\n')
    {
      assert t[k] == s[i + k] && t[k + 1] == s[i + k + 1] && t[k + 2] == s[i + k + 2];
    }
  }

  /** Trimming cannot create three line feeds in a row. */
  lemma TrimKeepsNoTripleNewline(s: string)
    requires NoTripleNewline(s)
    ensures NoTripleNewline(Trim(s))
  {
    TrimSlice(s);
    NoTripleNewlineSlice(s, LeadingSpaces(s), LeadingSpaces(s) + |Trim(s)|);
  }

  /** The two separators that the chunker splits on. */
  datatype Separator =
    | ParagraphBreak  // /\n\s*\n/
    | SentenceBreak   // /[.!?]+/

  predicate IsTerminator(c: char) {
    c == '.' || c == '!' || c == '?'
  }

  function TerminatorRun(s: string): (n: nat)
    ensures n <= |s|
    ensures forall i :: 0 <= i < n ==> IsTerminator(s[i])
    ensures n < |s| ==> !IsTerminator(s[n])
  {
    if s != [] && IsTerminator(s[0]) then 1 + TerminatorRun(s[1..]) else 0
  }

  /** The greatest index `j` with `lo <= j < hi` and `s[j]` a line feed. */
  function LastNewline(s: string, lo: nat, hi: nat): (r: Option<nat>)
    requires lo <= hi <= |s|
    ensures r.Some? ==> lo <= r.value < hi && s[r.value] == '\n'
    ensures r.Some? ==> forall k :: r.value < k < hi ==> s[k] != '\n'
    ensures r.None? ==> forall k :: lo <= k < hi ==> s[k] != '\n'
    decreases hi - lo
  {
    if hi == lo then None
    else if s[hi - 1] == '\n' then Some(hi - 1)
    else LastNewline(s, lo, hi - 1)
  }

  /** Where the separator that starts at `q` ends, if one starts there.
      For `\n\s*\n` the greedy `\s*` gives back whitespace until a line feed
      follows, so the match ends after the last line feed of the run. */
  function SeparatorEnd(sep: Separator, s: string, q: nat): (r: Option<nat>)
    requires q < |s|
    ensures r.Some? ==> q < r.value <= |s|
  {
    match sep
    case ParagraphBreak =>
      if s[q] == '\n' then
        var e := q + 1 + LeadingSpaces(s[q + 1..]);
        match LastNewline(s, q + 1, e)
        case Some(j) => Some(j + 1)
        case None => None
      else None
    case SentenceBreak =>
      if IsTerminator(s[q]) then Some(q + TerminatorRun(s[q..])) else None
  }

  /** `s.split(sep)`: the pieces between the separators, found left to
      right; a string without separators is one piece. */
  function Split(s: string, sep: Separator): (r: seq<string>)
    ensures |r| >= 1
  {
    SplitFrom(s, sep, 0, 0)
  }

  /** The current piece started at `p`; positions before `q` start no
      separator. */
  function SplitFrom(s: string, sep: Separator, p: nat, q: nat): (r: seq<string>)
    requires p <= q <= |s|
    ensures |r| >= 1
    decreases |s| - q
  {
    if q == |s| then [s[p..]]
    else match SeparatorEnd(sep, s, q)
      case Some(e) => [s[p..q]] + SplitFrom(s, sep, e, e)
      case None => SplitFrom(s, sep, p, q + 1)
  }

  /** Sentence pieces never contain `.`, `!` or `?`. */
  lemma {:induction false} SentencePiecesHaveNoTerminator(s: string, p: nat, q: nat)
    requires p <= q <= |s|
    requires forall k :: p <= k < q ==> !IsTerminator(s[k])
    ensures forall i, k :: 0 <= i < |SplitFrom(s, SentenceBreak, p, q)| && 0 <= k < |SplitFrom(s, SentenceBreak, p, q)[i]|
              ==> !IsTerminator(SplitFrom(s, SentenceBreak, p, q)[i][k])
    decreases |s| - q
  {
    var r := SplitFrom(s, SentenceBreak, p, q);
    if q == |s| {
      assert r == [s[p..]];
    } else {
      match SeparatorEnd(SentenceBreak, s, q)
      case Some(e) =>
        assert e > q && forall k :: q < k < e ==> IsTerminator(s[k]) by {
          assert forall k :: 0 <= k < e - q ==> IsTerminator(s[q..][k]);
        }
        var e' := e;
        assert e' == |s| || !IsTerminator(s[e']) by {
          assert e' - q == TerminatorRun(s[q..]);
          if e' < |s| { assert s[e'] == s[q..][e' - q]; }
        }
        SentencePiecesHaveNoTerminator(s, e, e);
        assert r == [s[p..q]] + SplitFrom(s, SentenceBreak, e, e);
      case None =>
        SentencePiecesHaveNoTerminator(s, p, q + 1);
    }
  }

  /** `s` begins with `lit`. */
  predicate StartsWith(s: string, lit: string) {
    |lit| <= |s| && s[..|lit|] == lit
  }

  predicate OccursAt(s: string, lit: string, i: nat) {
    i <= |s| && StartsWith(s[i..], lit)
  }

  /** `lit` occurs somewhere in `s` (an unanchored literal regex). */
  predicate Contains(s: string, lit: string) {
    exists i :: 0 <= i <= |s| && OccursAt(s, lit, i)
  }

  /** `es` matches somewhere in `s`. */
  predicate MatchesSomewhere(s: string, es: seq<Elem>) {
    exists i :: 0 <= i <= |s| && MatchElems(s[i..], es).Some?
  }

  predicate StartsWithAny(s: string, words: seq<string>) {
    exists w :: w in words && StartsWith(s, w)
  }

  /** The class `[A-Z\s]` under the `i` flag, on lower-cased text. */
  predicate IsLetterOrSpace(c: char) {
    ('a' <= c <= 'z') || IsSpace(c)
  }

  /** `[A-Z\s]+(w1|w2|...)` matched from position `start`: a non-empty run
      of letters and whitespace, then one of `words`. */
  predicate RunThenWord(s: string, start: nat, words: seq<string>) {
    exists p :: start < p <= |s| && (forall k :: start <= k < p ==> IsLetterOrSpace(s[k])) && StartsWithAny(s[p..], words)
  }

  /** `/^\d+ [A-Z\s]+(STREET|AVENUE|BOULEVARD|LANE|ROAD)/i` on lower-cased
      text: digits, one space, then a run of letters and whitespace ending
      in a street word. */
  predicate StartsWithStreetAddress(l: string) {
    var d := DigitRun(l);
    0 < d < |l| && l[d] == ' ' && RunThenWord(l, d + 1, ["street", "avenue", "boulevard", "lane", "road"])
  }

  /** Length of the first of `alts` that `s` begins with. */
  function FirstAlternative(s: string, alts: seq<string>): (r: Option<nat>)
    ensures r.Some? ==> exists a :: a in alts && r.value == |a| && StartsWith(s, a)
    ensures r.None? ==> forall a :: a in alts ==> !StartsWith(s, a)
  {
    if alts == [] then None
    else if StartsWith(s, alts[0]) then Some(|alts[0]|)
    else FirstAlternative(s, alts[1..])
  }

  /** `(s.match(/(a1|a2|...)/g) || []).length`: the number of matches found
      left to right, none overlapping. */
  function CountMatches(s: string, alts: seq<string>): (n: nat)
    requires forall a :: a in alts ==> |a| > 0
    ensures n <= |s|
    decreases |s|
  {
    if s == [] then 0
    else match FirstAlternative(s, alts)
      case Some(m) => 1 + CountMatches(s[m..], alts)
      case None => CountMatches(s[1..], alts)
  }

  /** Number of `sep` characters plus one: `s.split(sep).length` for a
      one-character separator. */
  function PieceCount(s: string, sep: char): (n: nat)
    ensures n >= 1
  {
    if s == [] then 1 else (if s[0] == sep then 1 else 0) + PieceCount(s[1..], sep)
  }
}
