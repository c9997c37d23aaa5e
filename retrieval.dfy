/** The citation builder of the chat server
    (supabase/functions/chat/index.ts): the rows returned by the vector
    search are filtered for boilerplate, the first five kept rows become
    citations, and the citations are rendered into the context block of the
    prompt. */
module Retrieval {
  import opened Text
  import opened Wrappers
  import opened Patterns
  import opened Types
  import opened Filtering

  const MaxCitations: nat := 5
  /** A row is kept only if its text is longer than this. */
  const MinExcerptLength: nat := 100
  /** A row matching a boilerplate pattern is dropped only below this length. */
  const ShortTextLength: nat := 200

  /** One search row: the requested output fields and the distance. */
  datatype SearchHit = SearchHit(
    primaryKey: string,
    text: string,
    documentName: string,
    pageNumber: Option<int>,
    distance: real)

  /** The parsed search response: `data` is an array of rows, or it is not
      (missing, null or another kind of value). */
  datatype SearchResponse = Rows(data: seq<SearchHit>) | Malformed

  const MalformedResponseError := "Failed to parse search results from vector database."

  /** The eight boilerplate patterns, each tested on the lower-cased text. */
  predicate MatchesBoilerplatePattern(l: string) {
    || Contains(l, "united states department of justice")
    || Contains(l, "attn:")
    || MatchesSomewhere(l, Lits("p.o.") + [Space] + Lits("box"))
    || StartsWithStreetAddress(l)
    || (exists i :: 0 <= i < |l| && RunThenWord(l, i, ["llp"]))
    || Contains(l, "case no.:")
    || Contains(l, "filed:")
    || MatchesSomewhere(l, Lits("page ") + [Digits] + Lits(" of ") + [Digits])
  }

  /** `addressPatterns.some(p => p.test(text) && text.length < 200)`. */
  predicate IsMostlyBoilerplate(hit: SearchHit) {
    var l := ToLower(hit.text);
    MatchesBoilerplatePattern(l) && |l| < ShortTextLength
  }

  /** The filter callback. */
  predicate Keep(hit: SearchHit) {
    !IsMostlyBoilerplate(hit) && |ToLower(hit.text)| > MinExcerptLength
  }

  /** A row is kept exactly when its text is longer than 100 characters and
      is either at least 200 characters long or matches no pattern. */
  lemma KeepIff(hit: SearchHit)
    ensures Keep(hit) <==>
      |hit.text| > MinExcerptLength && (|hit.text| >= ShortTextLength || !MatchesBoilerplatePattern(ToLower(hit.text)))
  {
  }

  /** The kept rows, in search order. */
  function KeptHits(hits: seq<SearchHit>): seq<SearchHit> {
    Filter(hits, Keep)
  }

  /** The positions of the kept rows. */
  function KeptPositions(hits: seq<SearchHit>): seq<nat> {
    AcceptedPositions(hits, Keep, 0)
  }

  /** `r => ({ id: r.primary_key, documentTitle: r.document_name, ... })`. */
  function ToCitation(hit: SearchHit): Citation {
    Citation(hit.primaryKey, hit.documentName, hit.pageNumber, hit.text, hit.distance)
  }

  /** `filter(...).slice(0, 5).map(...)`. */
  function Citations(hits: seq<SearchHit>): seq<Citation> {
    var kept := KeptHits(hits);
    var top := kept[..Min(MaxCitations, |kept|)];
    seq(|top|, i requires 0 <= i < |top| => ToCitation(top[i]))
  }

  /** There are at most five citations; they are the first five kept rows in
      search order, each field copied from its row: the excerpt is the
      original text, not the lower-cased one, and the similarity is the
      distance unchanged. */
  lemma CitationsAreFirstKept(hits: seq<SearchHit>)
    ensures var cs := Citations(hits);
      var pos := KeptPositions(hits);
      && |cs| == Min(MaxCitations, |pos|)
      && |cs| <= MaxCitations
      && forall i :: 0 <= i < |cs| ==>
           && Keep(hits[pos[i]])
           && cs[i].id == hits[pos[i]].primaryKey
           && cs[i].documentTitle == hits[pos[i]].documentName
           && cs[i].pageNumber == hits[pos[i]].pageNumber
           && cs[i].excerpt == hits[pos[i]].text
           && cs[i].similarity == hits[pos[i]].distance
  {
    FilterInOrder(hits, Keep, 0);
    AcceptedPositionsAccepted(hits, Keep, 0);
    assert hits[0..] == hits;
  }

  /** How a JavaScript template renders a page number that may be absent. */
  function PageText(page: Option<int>): string {
    match page
    case Some(n) => IntToString(n)
    case None => "undefined"
  }

  /** `Doc: ${c.documentTitle} (p${c.pageNumber}): "${c.excerpt}"`. */
  function Entry(c: Citation): string {
    "Doc: " + c.documentTitle + " (p" + PageText(c.pageNumber) + "): \"" + c.excerpt + "\""
  }

  function Entries(cs: seq<Citation>): (r: seq<string>)
    ensures |r| == |cs| && forall i :: 0 <= i < |cs| ==> r[i] == Entry(cs[i])
  {
    seq(|cs|, i requires 0 <= i < |cs| => Entry(cs[i]))
  }

  /** The context block: the entries joined by a blank line. */
  function Context(cs: seq<Citation>): string {
    Join(Entries(cs), "\n\n")
  }

  /** The context holds each citation's entry, in citation order, each one
      after the earlier entries and a blank line per earlier entry, and
      nothing else besides the separators. */
  lemma ContextHasEachEntry(cs: seq<Citation>, i: nat)
    requires i < |cs|
    ensures var es := Entries(cs);
      var off := SumLen(es[..i]) + 2 * i;
      && es[i] == Entry(cs[i])
      && off + |es[i]| <= |Context(cs)|
      && Context(cs)[off..off + |es[i]|] == es[i]
      && |Context(cs)| == SumLen(es) + 2 * (|cs| - 1)
  {
    JoinBlankLinesAt(Entries(cs), i);
  }

  /** Where a part lies in parts joined by blank lines. */
  lemma JoinBlankLinesAt(parts: seq<string>, i: nat)
    requires i < |parts|
    ensures var off := SumLen(parts[..i]) + 2 * i;
      && off + |parts[i]| <= |Join(parts, "\n\n")|
      && Join(parts, "\n\n")[off..off + |parts[i]|] == parts[i]
      && |Join(parts, "\n\n")| == SumLen(parts) + 2 * (|parts| - 1)
  {
    var sep := "\n\n";
    assert |sep| == 2;
    JoinPartAt(parts, sep, i);
    JoinLength(parts, sep);
    assert i * |sep| == 2 * i;
    assert (|parts| - 1) * |sep| == 2 * (|parts| - 1);
  }

  /** What the handler builds before prompting the model. */
  datatype Retrieved = Retrieved(citations: seq<Citation>, context: string)

  /** The response check, then the citations and their context. */
  function BuildCitations(response: SearchResponse): Result<Retrieved, string> {
    match response
    case Malformed => Failure(MalformedResponseError)
    case Rows(hits) =>
      var cs := Citations(hits);
      Success(Retrieved(cs, Context(cs)))
  }

  /** A response without a row array fails and builds nothing; otherwise at
      most five citations come back together with their own context. */
  lemma BuildCitationsOutcome(response: SearchResponse)
    ensures BuildCitations(response).Failure? <==> response.Malformed?
    ensures BuildCitations(response).Success? ==>
      var r := BuildCitations(response).value;
      |r.citations| <= MaxCitations && r.context == Context(r.citations)
      && (r.citations == [] <==> r.context == [])
  {
    if response.Rows? {
      var cs := Citations(response.data);
      CitationsAreFirstKept(response.data);
      if cs != [] {
        ContextHasEachEntry(cs, 0);
      }
    }
  }
}
