/** Character classes and string helpers shared by the whole model: the
    whitespace set that JavaScript's `trim` and `\s` use, trimming, joining,
    ASCII lower-casing, decimal rendering and the subsequence order. */
module Text {

  /** JavaScript WhiteSpace and LineTerminator code points: what `trim`
      removes and what the regex class `\s` matches. */
  predicate IsSpace(c: char) {
    c == '\t' || c == '\n' || c == '\U{000B}' || c == '\U{000C}' || c == '\r' || c == ' '
    || c == '\U{00A0}' || c == '\U{1680}' || ('\U{2000}' <= c <= '\U{200A}')
    || c == '\U{2028}' || c == '\U{2029}' || c == '\U{202F}' || c == '\U{205F}'
    || c == '\U{3000}' || c == '\U{FEFF}'
  }

  /** The characters that a regex `.` does not match. */
  predicate IsLineTerminator(c: char) {
    c == '\n' || c == '\r' || c == '\U{2028}' || c == '\U{2029}'
  }

  predicate IsDigit(c: char) {
    '0' <= c <= '9'
  }

  predicate IsAsciiLetter(c: char) {
    ('a' <= c <= 'z') || ('A' <= c <= 'Z')
  }

  /** The regex class `\w`: ASCII letters, digits and underscore. */
  predicate IsWordChar(c: char) {
    IsAsciiLetter(c) || IsDigit(c) || c == '_'
  }

  /** The smaller of two integers (`Math.min`). */
  function Min(a: int, b: int): int {
    if a <= b then a else b
  }

  predicate AllSpace(s: string) {
    forall i :: 0 <= i < |s| ==> IsSpace(s[i])
  }

  /** No leading and no trailing whitespace. */
  predicate IsTrimmed(s: string) {
    s == [] || (!IsSpace(s[0]) && !IsSpace(s[|s| - 1]))
  }

  /** Number of whitespace characters at the front of `s`. */
  function LeadingSpaces(s: string): (n: nat)
    ensures n <= |s|
    ensures n < |s| ==> !IsSpace(s[n])
  {
    if s != [] && IsSpace(s[0]) then 1 + LeadingSpaces(s[1..]) else 0
  }

  /** Number of whitespace characters at the end of `s`. */
  function TrailingSpaces(s: string): (n: nat)
    ensures n <= |s|
    ensures n < |s| ==> !IsSpace(s[|s| - n - 1])
  {
    if s != [] && IsSpace(s[|s| - 1]) then 1 + TrailingSpaces(s[..|s| - 1]) else 0
  }

  /** The characters `LeadingSpaces` counts are all whitespace. */
  lemma {:induction false} LeadingSpacesAreSpaces(s: string)
    ensures AllSpace(s[..LeadingSpaces(s)])
  {
    if s != [] && IsSpace(s[0]) {
      LeadingSpacesAreSpaces(s[1..]);
      assert s[..LeadingSpaces(s)] == [s[0]] + s[1..][..LeadingSpaces(s[1..])];
    }
  }

  /** The characters `TrailingSpaces` counts are all whitespace. */
  lemma {:induction false} TrailingSpacesAreSpaces(s: string)
    ensures AllSpace(s[|s| - TrailingSpaces(s)..])
  {
    if s != [] && IsSpace(s[|s| - 1]) {
      var init := s[..|s| - 1];
      TrailingSpacesAreSpaces(init);
      assert s[|s| - TrailingSpaces(s)..] == init[|init| - TrailingSpaces(init)..] + [s[|s| - 1]];
    }
  }

  /** `String.prototype.trim`: the slice of `s` between its leading and its
      trailing whitespace (`TrimSlice`), empty exactly when `s` is all
      whitespace (`TrimEmptyIff`). */
  function Trim(s: string): (r: string)
    ensures |r| <= |s|
    ensures IsTrimmed(r)
  {
    var i := LeadingSpaces(s);
    var j := |s| - TrailingSpaces(s[i..]);
    s[i..j]
  }

  /** The result is the slice of `s` that starts after its leading
      whitespace, and everything dropped on either side is whitespace. */
  lemma TrimSlice(s: string)
    ensures LeadingSpaces(s) + |Trim(s)| <= |s|
    ensures Trim(s) == s[LeadingSpaces(s)..LeadingSpaces(s) + |Trim(s)|]
    ensures AllSpace(s[..LeadingSpaces(s)])
    ensures AllSpace(s[LeadingSpaces(s) + |Trim(s)|..])
    ensures IsTrimmed(Trim(s))
  {
    var i := LeadingSpaces(s);
    var j := |s| - TrailingSpaces(s[i..]);
    var r := Trim(s);
    assert r == s[i..j];
    assert i + |r| == j;
    LeadingSpacesAreSpaces(s);
    TrailingSpacesOfSuffix(s, i);
    assert AllSpace(s[j..]);
  }

  /** The trailing whitespace of a suffix is trailing whitespace of `s`. */
  lemma TrailingSpacesOfSuffix(s: string, i: nat)
    requires i <= |s|
    ensures AllSpace(s[|s| - TrailingSpaces(s[i..])..])
  {
    var rest := s[i..];
    var n := TrailingSpaces(rest);
    TrailingSpacesAreSpaces(rest);
    assert s[|s| - n..] == rest[|rest| - n..];
  }

  lemma TrimEmptyIff(s: string)
    ensures Trim(s) == [] <==> AllSpace(s)
  {
    var i := LeadingSpaces(s);
    var j := |s| - TrailingSpaces(s[i..]);
    LeadingSpacesAreSpaces(s);
    TrailingSpacesAreSpaces(s[i..]);
    assert AllSpace(s) ==> i == |s|;
    assert j == i ==> i == |s| && s == s[..i];
  }

  lemma TrimOfTrimmed(s: string)
    requires IsTrimmed(s)
    ensures Trim(s) == s
  {
  }

  /** The elements of the sequences of `ss`, in order. */
  function Concat<T>(ss: seq<seq<T>>): seq<T> {
    if ss == [] then [] else ss[0] + Concat(ss[1..])
  }

  /** The elements of `parts` with `sep` between neighbours
      (`Array.prototype.join`). */
  function Join(parts: seq<string>, sep: string): string
  {
    if |parts| == 0 then []
    else if |parts| == 1 then parts[0]
    else Join(parts[..|parts| - 1], sep) + sep + parts[|parts| - 1]
  }

  function SumLen(parts: seq<string>): nat
  {
    if parts == [] then 0 else SumLen(parts[..|parts| - 1]) + |parts[|parts| - 1]|
  }

  lemma {:induction false} JoinLength(parts: seq<string>, sep: string)
    ensures |parts| > 0 ==> |Join(parts, sep)| == SumLen(parts) + (|parts| - 1) * |sep|
    ensures |parts| == 0 ==> Join(parts, sep) == []
  {
    if |parts| > 1 {
      JoinLength(parts[..|parts| - 1], sep);
      assert (|parts| - 1) * |sep| == (|parts| - 2) * |sep| + |sep|;
    }
  }

  lemma {:induction false} SumLenAppend(a: seq<string>, b: seq<string>)
    ensures SumLen(a + b) == SumLen(a) + SumLen(b)
  {
    if b != [] {
      assert (a + b)[..|a + b| - 1] == a + b[..|b| - 1];
      SumLenAppend(a, b[..|b| - 1]);
    } else {
      assert a + b == a;
    }
  }

  /** Join of non-empty parts is empty exactly when there are no parts. */
  lemma {:induction false} JoinEmpty(parts: seq<string>, sep: string)
    requires forall i :: 0 <= i < |parts| ==> parts[i] != []
    ensures Join(parts, sep) == [] <==> parts == []
  {
    if |parts| > 1 {
      JoinEmpty(parts[..|parts| - 1], sep);
    }
  }

  /** Part `i` appears in the joined string right after the earlier parts
      and their separators. */
  lemma {:induction false} JoinPartAt(parts: seq<string>, sep: string, i: nat)
    requires i < |parts|
    ensures var off := SumLen(parts[..i]) + i * |sep|;
      off + |parts[i]| <= |Join(parts, sep)| && Join(parts, sep)[off..off + |parts[i]|] == parts[i]
  {
    var n := |parts|;
    if n > 1 {
      var init := parts[..n - 1];
      var sepTotal: nat := i * |sep|;
      var off := SumLen(parts[..i]) + sepTotal;
      JoinLength(init, sep);
      if i < n - 1 {
        JoinPartAt(init, sep, i);
        assert init[..i] == parts[..i] && init[i] == parts[i];
        JoinKeepsInit(parts, sep, off, |parts[i]|);
      } else {
        assert parts[..i] == init;
        assert (i - 1) * |sep| + |sep| == sepTotal;
        JoinEndsWithLastPart(parts, sep);
        assert off == |Join(init, sep)| + |sep|;
      }
    }
  }

  /** A slice of the join of all but the last part is a slice of the whole join. */
  lemma JoinKeepsInit(parts: seq<string>, sep: string, off: nat, len: nat)
    requires |parts| > 1 && off + len <= |Join(parts[..|parts| - 1], sep)|
    ensures off + len <= |Join(parts, sep)|
    ensures Join(parts, sep)[off..off + len] == Join(parts[..|parts| - 1], sep)[off..off + len]
  {
    var j := Join(parts[..|parts| - 1], sep);
    assert Join(parts, sep) == j + (sep + parts[|parts| - 1]);
  }

  /** The last part closes the join, after the join of the others and a separator. */
  lemma JoinEndsWithLastPart(parts: seq<string>, sep: string)
    requires |parts| > 1
    ensures var j := Join(parts[..|parts| - 1], sep);
      |j| + |sep| + |parts[|parts| - 1]| == |Join(parts, sep)|
      && Join(parts, sep)[|j| + |sep|..] == parts[|parts| - 1]
  {
    var j := Join(parts[..|parts| - 1], sep);
    assert Join(parts, sep) == (j + sep) + parts[|parts| - 1];
  }

  function LowerChar(c: char): (d: char)
    ensures IsAsciiLetter(c) ==> 'a' <= d <= 'z'
    ensures !('A' <= c <= 'Z') ==> d == c
  {
    if 'A' <= c <= 'Z' then (c as int + 32) as char else c
  }

  function UpperChar(c: char): (d: char)
    ensures 'a' <= c <= 'z' ==> 'A' <= d <= 'Z'
    ensures !('a' <= c <= 'z') ==> d == c
  {
    if 'a' <= c <= 'z' then (c as int - 32) as char else c
  }

  /** Lower-cases ASCII letters and keeps every other character. */
  function ToLower(s: string): (r: string)
    ensures |r| == |s|
    ensures forall i :: 0 <= i < |s| ==> r[i] == LowerChar(s[i])
  {
    seq(|s|, i requires 0 <= i < |s| => LowerChar(s[i]))
  }

  function DigitChar(d: nat): (c: char)
    requires d < 10
    ensures IsDigit(c)
  {
    ('0' as int + d) as char
  }

  /** Decimal digits of a natural number, most significant first. */
  function NatToString(n: nat): (r: string)
    ensures r != [] && forall i :: 0 <= i < |r| ==> IsDigit(r[i])
  {
    if n < 10 then [DigitChar(n)] else NatToString(n / 10) + [DigitChar(n % 10)]
  }

  /** How JavaScript renders an integer-valued number. */
  function IntToString(n: int): (r: string)
    ensures r != []
    ensures (r[0] == '-') <==> n < 0
  {
    if n < 0 then "-" + NatToString(-n) else NatToString(n)
  }

  /** `a` can be obtained from `b` by deleting characters. */
  predicate IsSubsequence(a: string, b: string)
    decreases |b|
  {
    a == [] || (b != [] && ((a[0] == b[0] && IsSubsequence(a[1..], b[1..])) || IsSubsequence(a, b[1..])))
  }

  lemma {:induction false} SubsequenceRefl(a: string)
    ensures IsSubsequence(a, a)
  {
    if a != [] {
      SubsequenceRefl(a[1..]);
    }
  }

  lemma {:induction false} SubsequenceTrans(a: string, b: string, c: string)
    requires IsSubsequence(a, b) && IsSubsequence(b, c)
    ensures IsSubsequence(a, c)
    decreases |c|
  {
    if a != [] {
      assert b != [] && c != [];
      if IsSubsequence(b, c[1..]) {
        SubsequenceTrans(a, b, c[1..]);
      } else {
        assert b[0] == c[0] && IsSubsequence(b[1..], c[1..]);
        if a[0] == b[0] && IsSubsequence(a[1..], b[1..]) {
          SubsequenceTrans(a[1..], b[1..], c[1..]);
        } else {
          SubsequenceTrans(a, b[1..], c[1..]);
        }
      }
    }
  }

  /** Deleting a prefix of the larger string keeps the relation. */
  lemma {:induction false} SubsequenceSkip(a: string, b: string, k: nat)
    requires k <= |b| && IsSubsequence(a, b[k..])
    ensures IsSubsequence(a, b)
  {
    if k > 0 {
      assert b[1..][k - 1..] == b[k..];
      SubsequenceSkip(a, b[1..], k - 1);
    }
  }

  /** A common first character can be added to both sides. */
  lemma SubsequenceCons(x: char, a: string, b: string)
    requires IsSubsequence(a, b)
    ensures IsSubsequence([x] + a, [x] + b)
  {
    assert ([x] + a)[1..] == a && ([x] + b)[1..] == b;
  }

  lemma {:induction false} SubsequencePrefix(b: string, j: nat)
    requires j <= |b|
    ensures IsSubsequence(b[..j], b)
  {
    if j > 0 {
      SubsequencePrefix(b[1..], j - 1);
      assert b[..j][1..] == b[1..][..j - 1];
    }
  }

  lemma SubsequenceSlice(b: string, i: nat, j: nat)
    requires i <= j <= |b|
    ensures IsSubsequence(b[i..j], b)
  {
    SubsequencePrefix(b[i..], j - i);
    assert b[i..][..j - i] == b[i..j];
    SubsequenceSkip(b[i..j], b, i);
  }

  lemma TrimIsSubsequence(s: string)
    ensures IsSubsequence(Trim(s), s)
  {
    SubsequenceSlice(s, LeadingSpaces(s), LeadingSpaces(s) + |Trim(s)|);
  }
}
