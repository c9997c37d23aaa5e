/** The chat title of a saved session (src/utils/chatSummary.ts): the first
    user message is lower-cased, stripped of punctuation and split into
    words; topic keywords go to the front, up to three other words are kept
    capitalised, and the title takes one of four shapes. */
module ChatSummary {
  import opened Text
  import opened Wrappers
  import opened Filtering

  /** A message as the summariser sees it: a role name and its text. */
  datatype Turn = Turn(role: string, content: string)

  const NoUserMessageTitle := "New Chat Session"
  const NoWordsTitle := "General FTX Query"

  const StopWords: set<string> := {
    "the", "a", "an", "and", "or", "but", "in", "on", "at", "to", "for",
    "of", "with", "by", "from", "is", "was", "are", "were", "been", "be",
    "have", "has", "had", "do", "does", "did", "will", "would", "could",
    "should", "may", "might", "must", "can", "what", "when", "where",
    "who", "why", "how", "which", "this", "that", "these", "those",
    "i", "you", "we", "they", "he", "she", "it", "me", "us", "them",
    "about", "tell", "explain", "show", "find", "help", "please"
  }

  /** The topic keywords and the title word each one becomes. */
  const TopicKeywords: map<string, string> := map[
    "ftx" := "FTX", "bankruptcy" := "Bankruptcy", "creditor" := "Creditor",
    "creditors" := "Creditors", "claim" := "Claim", "claims" := "Claims",
    "sbf" := "SBF", "sam" := "Sam", "bankman" := "Bankman", "fried" := "Fried",
    "alameda" := "Alameda", "customer" := "Customer", "customers" := "Customers",
    "fund" := "Fund", "funds" := "Funds", "asset" := "Asset", "assets" := "Assets",
    "recovery" := "Recovery", "distribution" := "Distribution", "court" := "Court",
    "case" := "Case", "legal" := "Legal", "document" := "Document",
    "documents" := "Documents", "filing" := "Filing", "filings" := "Filings",
    "fraud" := "Fraud", "collapse" := "Collapse", "exchange" := "Exchange",
    "crypto" := "Crypto", "cryptocurrency" := "Crypto", "bitcoin" := "Bitcoin",
    "token" := "Token", "tokens" := "Tokens", "trading" := "Trading",
    "lawsuit" := "Lawsuit", "settlement" := "Settlement"
  ]

  // ---------------------------------------------------------------------
  // The first user message
  // ---------------------------------------------------------------------

  /** `messages.find(msg => msg.role === 'user')`, its content. */
  function FirstUserContent(messages: seq<Turn>): (r: Option<string>)
    ensures r.None? <==> forall i :: 0 <= i < |messages| ==> messages[i].role != "user"
    ensures r.Some? ==> exists i :: (0 <= i < |messages| && messages[i].role == "user"
      && messages[i].content == r.value && forall k :: 0 <= k < i ==> messages[k].role != "user")
  {
    if messages == [] then None
    else if messages[0].role == "user" then Some(messages[0].content)
    else
      var rest := FirstUserContent(messages[1..]);
      FirstUserOfTail(messages, rest);
      rest
  }

  /** When the first message is not the user's, the first user message of
      the tail is the first user message of the whole list. */
  lemma FirstUserOfTail(messages: seq<Turn>, rest: Option<string>)
    requires messages != [] && messages[0].role != "user"
    requires rest.None? <==> forall i :: 0 <= i < |messages[1..]| ==> messages[1..][i].role != "user"
    requires rest.Some? ==> exists i :: (0 <= i < |messages[1..]| && messages[1..][i].role == "user"
      && messages[1..][i].content == rest.value && forall k :: 0 <= k < i ==> messages[1..][k].role != "user")
    ensures rest.None? <==> forall i :: 0 <= i < |messages| ==> messages[i].role != "user"
    ensures rest.Some? ==> exists i :: (0 <= i < |messages| && messages[i].role == "user"
      && messages[i].content == rest.value && forall k :: 0 <= k < i ==> messages[k].role != "user")
  {
    var tail := messages[1..];
    assert forall i :: 1 <= i < |messages| ==> messages[i] == tail[i - 1];
    if rest.Some? {
      var j :| 0 <= j < |tail| && tail[j].role == "user"
        && tail[j].content == rest.value && forall k :: 0 <= k < j ==> tail[k].role != "user";
      assert messages[j + 1] == tail[j];
      forall k | 0 <= k < j + 1
        ensures messages[k].role != "user"
      {
        if k > 0 {
          assert messages[k] == tail[k - 1];
        }
      }
    }
  }

  // ---------------------------------------------------------------------
  // Words
  // ---------------------------------------------------------------------

  /** The characters `replace(/[^\w\s]/g, '')` keeps: word characters and
      whitespace. */
  predicate IsWordOrSpace(c: char) {
    IsWordChar(c) || IsSpace(c)
  }

  /** `replace(/[^\w\s]/g, '')`: the word and whitespace characters of `s`,
      all of them and no other, in order. */
  function StripPunctuation(s: string): (r: string)
    ensures forall k :: 0 <= k < |r| ==> IsWordChar(r[k]) || IsSpace(r[k])
    ensures forall k :: 0 <= k < |r| ==> r[k] in s
    ensures forall k :: 0 <= k < |s| && (IsWordChar(s[k]) || IsSpace(s[k])) ==> s[k] in r
    ensures Selects(r, s, IsWordOrSpace)
  {
    FilterMembers(s, IsWordOrSpace);
    FilterSelects(s, IsWordOrSpace);
    Filter(s, IsWordOrSpace)
  }

  /** `split(/\s+/)`: the pieces between the runs of whitespace.  The piece
      in progress starts at `p`; no run starts between `p` and `q`. */
  function SplitOnSpacesFrom(s: string, p: nat, q: nat): (r: seq<string>)
    requires p <= q <= |s|
    ensures |r| >= 1
    decreases |s| - q
  {
    if q == |s| then [s[p..]]
    else if IsSpace(s[q]) then
      var e := q + LeadingSpaces(s[q..]);
      [s[p..q]] + SplitOnSpacesFrom(s, e, e)
    else SplitOnSpacesFrom(s, p, q + 1)
  }

  predicate IsNotSpace(c: char) {
    !IsSpace(c)
  }

  /** The pieces, in order, spell out the text without its whitespace;
      only the first and the last piece can be empty, and the first is
      empty exactly when the text is empty or starts with whitespace. */
  function SplitOnSpaces(s: string): (r: seq<string>)
    ensures |r| >= 1
    ensures Concat(r) == Filter(s, IsNotSpace)
    ensures forall i :: 0 < i < |r| - 1 ==> r[i] != []
    ensures r[0] == [] <==> s == [] || IsSpace(s[0])
  {
    PiecesSpellText(s, 0, 0);
    InnerPiecesNonEmpty(s, 0, 0);
    assert s[0..] == s;
    SplitOnSpacesFrom(s, 0, 0)
  }

  /** The pieces from `p` on, concatenated, are the non-whitespace
      characters of `s[p..]`. */
  lemma {:induction false} PiecesSpellText(s: string, p: nat, q: nat)
    requires p <= q <= |s|
    requires forall k :: p <= k < q ==> !IsSpace(s[k])
    ensures Concat(SplitOnSpacesFrom(s, p, q)) == Filter(s[p..], IsNotSpace)
    decreases |s| - q
  {
    var r := SplitOnSpacesFrom(s, p, q);
    if q == |s| {
      assert r == [s[p..]];
      assert r[1..] == [];
      assert forall k :: 0 <= k < |s[p..]| ==> s[p..][k] == s[p + k];
      FilterAllAccepted(s[p..], IsNotSpace);
    } else if IsSpace(s[q]) {
      var n := LeadingSpaces(s[q..]);
      var e := q + n;
      var rest := SplitOnSpacesFrom(s, e, e);
      PiecesSpellText(s, e, e);
      assert r == [s[p..q]] + rest;
      assert r[1..] == rest;
      assert Concat(r) == s[p..q] + Concat(rest);
      LeadingSpacesAreSpaces(s[q..]);
      assert s[q..][..n] == s[q..e];
      FilterAcrossSpaceRun(s, p, q, e);
    } else {
      PiecesSpellText(s, p, q + 1);
    }
  }

  /** A word followed by a run of whitespace contributes the word alone. */
  lemma FilterAcrossSpaceRun(s: string, p: nat, q: nat, e: nat)
    requires p <= q <= e <= |s|
    requires forall k :: p <= k < q ==> !IsSpace(s[k])
    requires AllSpace(s[q..e])
    ensures Filter(s[p..], IsNotSpace) == s[p..q] + Filter(s[e..], IsNotSpace)
  {
    assert forall k :: 0 <= k < |s[p..q]| ==> s[p..q][k] == s[p + k];
    FilterAllAccepted(s[p..q], IsNotSpace);
    FilterNoneAccepted(s[q..e], IsNotSpace);
    assert s[p..] == s[p..q] + (s[q..e] + s[e..]);
    FilterAppend(s[q..e], s[e..], IsNotSpace);
    FilterAppend(s[p..q], s[q..e] + s[e..], IsNotSpace);
  }

  /** Only the first and the last piece can be empty; the first is not
      when the piece in progress starts on a non-whitespace character. */
  lemma {:induction false} InnerPiecesNonEmpty(s: string, p: nat, q: nat)
    requires p <= q <= |s|
    requires forall k :: p <= k < q ==> !IsSpace(s[k])
    ensures forall i :: 0 < i < |SplitOnSpacesFrom(s, p, q)| - 1 ==> SplitOnSpacesFrom(s, p, q)[i] != []
    ensures p < |s| && !IsSpace(s[p]) ==> SplitOnSpacesFrom(s, p, q)[0] != []
    decreases |s| - q
  {
    var r := SplitOnSpacesFrom(s, p, q);
    if q == |s| {
      assert r == [s[p..]];
    } else if IsSpace(s[q]) {
      var n := LeadingSpaces(s[q..]);
      var e := q + n;
      var rest := SplitOnSpacesFrom(s, e, e);
      InnerPiecesNonEmpty(s, e, e);
      assert r == [s[p..q]] + rest;
      if e == |s| {
        assert rest == [s[e..]];
      } else {
        assert s[e] == s[q..][n];
        assert rest[0] != [];
      }
      forall i | 0 < i < |r| - 1
        ensures r[i] != []
      {
        assert r[i] == rest[i - 1];
      }
    } else {
      InnerPiecesNonEmpty(s, p, q + 1);
    }
  }

  /** Every piece is made of characters of `s` and holds no whitespace. */
  lemma {:induction false} PiecesHaveNoSpace(s: string, p: nat, q: nat)
    requires p <= q <= |s|
    requires forall k :: p <= k < q ==> !IsSpace(s[k])
    ensures forall i, k :: 0 <= i < |SplitOnSpacesFrom(s, p, q)| && 0 <= k < |SplitOnSpacesFrom(s, p, q)[i]| ==>
      !IsSpace(SplitOnSpacesFrom(s, p, q)[i][k]) && SplitOnSpacesFrom(s, p, q)[i][k] in s
    decreases |s| - q
  {
    var r := SplitOnSpacesFrom(s, p, q);
    if q == |s| {
      assert r == [s[p..]];
      assert forall k :: 0 <= k < |s| - p ==> s[p..][k] == s[p + k];
    } else if IsSpace(s[q]) {
      var e := q + LeadingSpaces(s[q..]);
      var rest := SplitOnSpacesFrom(s, e, e);
      PiecesHaveNoSpace(s, e, e);
      assert r == [s[p..q]] + rest;
      forall i, k | 0 <= i < |r| && 0 <= k < |r[i]|
        ensures !IsSpace(r[i][k]) && r[i][k] in s
      {
        if i == 0 {
          assert r[i][k] == s[p + k];
        } else {
          assert r[i][k] == rest[i - 1][k];
        }
      }
    } else {
      PiecesHaveNoSpace(s, p, q + 1);
      assert r == SplitOnSpacesFrom(s, p, q + 1);
    }
  }

  /** A token survives the filter: longer than two characters and not a
      stop word. */
  predicate IsCandidate(w: string) {
    |w| > 2 && w !in StopWords
  }

  /** `filter(word => word.length > 2 && !stopWords.has(word))`: every
      candidate token and no other, in order, each as often as it occurs. */
  function Candidates(tokens: seq<string>): (r: seq<string>)
    ensures forall i :: 0 <= i < |r| ==> IsCandidate(r[i]) && r[i] in tokens
    ensures forall w :: w in tokens && IsCandidate(w) ==> w in r
    ensures Selects(r, tokens, IsCandidate)
  {
    FilterMembers(tokens, IsCandidate);
    FilterSelects(tokens, IsCandidate);
    Filter(tokens, IsCandidate)
  }

  /** The candidate words of a message. */
  function Words(content: string): seq<string> {
    Candidates(SplitOnSpaces(StripPunctuation(ToLower(content))))
  }

  /** A character that can appear in a word: a lower-case ASCII letter, a
      digit or an underscore. */
  predicate IsWordLetter(c: char) {
    IsWordChar(c) && !('A' <= c <= 'Z')
  }

  /** After lower-casing and stripping, every character is a word letter or
      whitespace. */
  lemma StrippedChars(content: string)
    ensures forall c :: c in StripPunctuation(ToLower(content)) ==> IsWordLetter(c) || IsSpace(c)
  {
    var lower := ToLower(content);
    var stripped := StripPunctuation(lower);
    forall c | c in stripped
      ensures IsWordLetter(c) || IsSpace(c)
    {
      var k :| 0 <= k < |stripped| && stripped[k] == c;
      assert c in lower;
      var j :| 0 <= j < |lower| && lower[j] == c;
      assert c == LowerChar(content[j]);
    }
  }

  /** Every candidate word is longer than two characters, is not a stop word,
      and is made of lower-case ASCII letters, digits and underscores. */
  lemma WordsAreCandidates(content: string)
    ensures forall i :: 0 <= i < |Words(content)| ==>
      && IsCandidate(Words(content)[i])
      && forall k :: 0 <= k < |Words(content)[i]| ==> IsWordLetter(Words(content)[i][k])
  {
    var stripped := StripPunctuation(ToLower(content));
    var tokens := SplitOnSpaces(stripped);
    StrippedChars(content);
    PiecesHaveNoSpace(stripped, 0, 0);
    assert tokens == SplitOnSpacesFrom(stripped, 0, 0);
    var ws := Words(content);
    forall i | 0 <= i < |ws|
      ensures forall k :: 0 <= k < |ws[i]| ==> IsWordLetter(ws[i][k])
    {
      var j :| 0 <= j < |tokens| && tokens[j] == ws[i];
      forall k | 0 <= k < |ws[i]|
        ensures IsWordLetter(ws[i][k])
      {
        assert ws[i][k] == tokens[j][k];
      }
    }
  }

  // ---------------------------------------------------------------------
  // Relevant words
  // ---------------------------------------------------------------------

  /** `word.charAt(0).toUpperCase() + word.slice(1)`. */
  function Capitalize(w: string): (r: string)
    ensures |r| == |w|
    ensures w != [] ==> r[0] == UpperChar(w[0]) && r[1..] == w[1..]
  {
    if w == [] then [] else [UpperChar(w[0])] + w[1..]
  }

  /** One pass of the loop: a topic keyword goes to the front as its title
      word; another word is appended, capitalised, while fewer than three
      words are held. */
  function AddWord(relevant: seq<string>, w: string, topics: map<string, string>): seq<string> {
    if w in topics then [topics[w]] + relevant
    else if |relevant| < 3 then relevant + [Capitalize(w)]
    else relevant
  }

  /** The list after the first `n` words. */
  function RelevantUpTo(ws: seq<string>, n: nat, topics: map<string, string>): seq<string>
    requires n <= |ws|
  {
    if n == 0 then [] else AddWord(RelevantUpTo(ws, n - 1, topics), ws[n - 1], topics)
  }

  function Relevant(ws: seq<string>, topics: map<string, string>): seq<string> {
    RelevantUpTo(ws, |ws|, topics)
  }

  /** Reference definitions: the title words of the topic keywords among the
      first `n` words, and the other words capitalised, both in input order. */
  function TopicTitles(ws: seq<string>, n: nat, topics: map<string, string>): seq<string>
    requires n <= |ws|
  {
    if n == 0 then []
    else TopicTitles(ws, n - 1, topics) + (if ws[n - 1] in topics then [topics[ws[n - 1]]] else [])
  }

  function OtherWords(ws: seq<string>, n: nat, topics: map<string, string>): seq<string>
    requires n <= |ws|
  {
    if n == 0 then []
    else OtherWords(ws, n - 1, topics) + (if ws[n - 1] in topics then [] else [Capitalize(ws[n - 1])])
  }

  function Reverse<T>(s: seq<T>): (r: seq<T>)
    ensures |r| == |s| && forall i :: 0 <= i < |s| ==> r[i] == s[|s| - 1 - i]
  {
    if s == [] then [] else [s[|s| - 1]] + Reverse(s[..|s| - 1])
  }

  /** The shape of the relevant list: the topic title words, the last one
      first, followed by the first few other words in input order; the other
      words stop at three, and a word is left out only when the list already
      holds three or more. */
  predicate RelevantShape(r: seq<string>, titles: seq<string>, others: seq<string>) {
    && |titles| <= |r|
    && r[..|titles|] == Reverse(titles)
    && |r| - |titles| <= 3
    && |r| - |titles| <= |others|
    && r[|titles|..] == others[..|r| - |titles|]
    && (|r| - |titles| < |others| ==> |r| >= 3)
  }

  lemma {:induction false} RelevantShapeUpTo(ws: seq<string>, n: nat, topics: map<string, string>)
    requires n <= |ws|
    ensures RelevantShape(RelevantUpTo(ws, n, topics), TopicTitles(ws, n, topics), OtherWords(ws, n, topics))
  {
    if n > 0 {
      RelevantShapeUpTo(ws, n - 1, topics);
      var r := RelevantUpTo(ws, n - 1, topics);
      var t := TopicTitles(ws, n - 1, topics);
      var o := OtherWords(ws, n - 1, topics);
      var w := ws[n - 1];
      if w in topics {
        TopicStep(r, t, o, topics[w]);
        assert RelevantUpTo(ws, n, topics) == [topics[w]] + r;
        assert TopicTitles(ws, n, topics) == t + [topics[w]];
        assert OtherWords(ws, n, topics) == o;
      } else if |r| < 3 {
        OtherStep(r, t, o, Capitalize(w));
        assert RelevantUpTo(ws, n, topics) == r + [Capitalize(w)];
        assert TopicTitles(ws, n, topics) == t;
        assert OtherWords(ws, n, topics) == o + [Capitalize(w)];
      } else {
        SkipStep(r, t, o, Capitalize(w));
        assert RelevantUpTo(ws, n, topics) == r;
        assert TopicTitles(ws, n, topics) == t;
        assert OtherWords(ws, n, topics) == o + [Capitalize(w)];
      }
    }
  }

  /** A topic keyword goes in front of the other topic title words. */
  lemma TopicStep(r: seq<string>, t: seq<string>, o: seq<string>, title: string)
    requires RelevantShape(r, t, o)
    ensures RelevantShape([title] + r, t + [title], o)
  {
    var r' := [title] + r;
    var t' := t + [title];
    assert t'[..|t|] == t;
    assert Reverse(t') == [title] + Reverse(t);
    assert r'[..|t'|] == [title] + r[..|t|];
    assert r'[|t'|..] == r[|t|..];
  }

  /** While fewer than three words are held, the next other word is appended. */
  lemma OtherStep(r: seq<string>, t: seq<string>, o: seq<string>, w: string)
    requires RelevantShape(r, t, o) && |r| < 3
    ensures RelevantShape(r + [w], t, o + [w])
  {
    assert |r| - |t| == |o|;
    assert (r + [w])[..|t|] == r[..|t|];
    assert (r + [w])[|t|..] == r[|t|..] + [w];
    assert (o + [w])[..|o| + 1] == o + [w];
  }

  /** Once three words are held, another word is dropped. */
  lemma SkipStep(r: seq<string>, t: seq<string>, o: seq<string>, w: string)
    requires RelevantShape(r, t, o) && |r| >= 3
    ensures RelevantShape(r, t, o + [w])
  {
    assert (o + [w])[..|r| - |t|] == o[..|r| - |t|];
  }

  /** Topic keywords come first, the last occurrence first; then the first
      other words, at most three, in input order. */
  lemma RelevantOrder(ws: seq<string>, topics: map<string, string>)
    ensures RelevantShape(Relevant(ws, topics), TopicTitles(ws, |ws|, topics), OtherWords(ws, |ws|, topics))
  {
    RelevantShapeUpTo(ws, |ws|, topics);
  }

  /** Without topic keywords the list is the first three words, capitalised. */
  lemma NoTopicsFirstThree(ws: seq<string>, topics: map<string, string>)
    requires forall i :: 0 <= i < |ws| ==> ws[i] !in topics
    ensures var others := OtherWords(ws, |ws|, topics);
      Relevant(ws, topics) == others[..if |others| < 3 then |others| else 3]
  {
    RelevantShapeUpTo(ws, |ws|, topics);
    NoTopicTitles(ws, |ws|, topics);
  }

  lemma {:induction false} NoTopicTitles(ws: seq<string>, n: nat, topics: map<string, string>)
    requires n <= |ws| && forall i :: 0 <= i < |ws| ==> ws[i] !in topics
    ensures TopicTitles(ws, n, topics) == []
  {
    if n > 0 {
      NoTopicTitles(ws, n - 1, topics);
    }
  }

  /** The list never shrinks, and any word makes it non-empty. */
  lemma {:induction false} RelevantGrows(ws: seq<string>, n: nat, topics: map<string, string>)
    requires n <= |ws|
    ensures n > 0 ==> RelevantUpTo(ws, n, topics) != []
    ensures forall m :: 0 <= m <= n ==> |RelevantUpTo(ws, m, topics)| <= |RelevantUpTo(ws, n, topics)|
  {
    if n > 0 {
      RelevantGrows(ws, n - 1, topics);
    }
  }

  /** The loop of the source, with `unshift` and `push`. */
  method RelevantWords(ws: seq<string>, topics: map<string, string>) returns (relevant: seq<string>)
    ensures relevant == Relevant(ws, topics)
  {
    relevant := [];
    for i := 0 to |ws|
      invariant relevant == RelevantUpTo(ws, i, topics)
    {
      var w := ws[i];
      if w in topics {
        relevant := [topics[w]] + relevant;
      } else if |relevant| < 3 {
        relevant := relevant + [Capitalize(w)];
      }
    }
  }

  // ---------------------------------------------------------------------
  // The title
  // ---------------------------------------------------------------------

  /** The four title shapes. */
  function Title(relevant: seq<string>): (r: string)
    ensures r != []
  {
    if |relevant| == 0 then NoWordsTitle
    else if |relevant| == 1 then relevant[0] + " Related Query"
    else if |relevant| == 2 then relevant[0] + " " + relevant[1] + " Query"
    else
      JoinLength(relevant[..3], " ");
      Join(relevant[..3], " ")
  }

  /** `generateChatSummary(messages)`. */
  function Summary(messages: seq<Turn>): string {
    match FirstUserContent(messages)
    case None => NoUserMessageTitle
    case Some(content) => Title(Relevant(Words(content), TopicKeywords))
  }

  /** The title is never empty; without a user message it is the fixed
      session title; a message with no candidate word gets the general
      title, and one with candidate words a title built from one, two or
      the first three relevant words. */
  lemma SummaryShapes(messages: seq<Turn>)
    ensures Summary(messages) != []
    ensures FirstUserContent(messages).None? ==> Summary(messages) == NoUserMessageTitle
    ensures FirstUserContent(messages).Some? ==>
      var ws := Words(FirstUserContent(messages).value);
      var r := Relevant(ws, TopicKeywords);
      && (ws == [] ==> Summary(messages) == NoWordsTitle)
      && (ws != [] ==> r != [])
      && (|r| == 1 ==> Summary(messages) == r[0] + " Related Query")
      && (|r| == 2 ==> Summary(messages) == r[0] + " " + r[1] + " Query")
      && (|r| >= 3 ==> Summary(messages) == Join(r[..3], " "))
  {
    if FirstUserContent(messages).Some? {
      var ws := Words(FirstUserContent(messages).value);
      RelevantGrows(ws, |ws|, TopicKeywords);
    }
  }

  /** `generateChatSummary` as the source runs it. */
  method GenerateChatSummary(messages: seq<Turn>) returns (title: string)
    ensures title == Summary(messages)
    ensures title != []
  {
    var first := FirstUserContent(messages);
    if first.None? {
      return NoUserMessageTitle;
    }
    var words := Words(first.value);
    var relevant := RelevantWords(words, TopicKeywords);
    title := Title(relevant);
  }
}
