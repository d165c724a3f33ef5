/**
 * The knowledge tool of mongodb_agent/agent.py: `query_wikipedia_knowledge`
 * routes one request to a handler, the handlers fill a shared result object
 * in place, and the fetch handlers serve a stored article or fetch it from
 * Wikipedia, save it as markdown, store it and read it back.
 */
module Agent {
  import opened Wrappers
  import opened Text
  import opened Documents
  import opened Parser
  import opened ParserProperties
  import opened WikipediaTools
  import opened RoundTrip
  import opened Store
  import opened Retrieval
  import Search

  // ---------------------------------------------------------------------------
  // The `limit` argument
  // ---------------------------------------------------------------------------

  /** Python's `xs[:n]`: the first `n` items, or for a negative `n` all but the last `-n`. */
  function SliceTo<T>(xs: seq<T>, n: int): (r: seq<T>)
    ensures |r| <= |xs| && r == xs[..|r|]
    ensures n >= 0 ==> |r| == if n < |xs| then n else |xs|
    ensures n < 0 ==> |r| == if |xs| + n > 0 then |xs| + n else 0
  {
    if n >= 0 then (if n < |xs| then xs[..n] else xs)
    else if |xs| + n > 0 then xs[..|xs| + n] else []
  }

  /** `limit and len(xs) > limit`: whether a handler cuts its list and reports `limited`. */
  predicate Limited(n: nat, limit: int) {
    limit != 0 && n > limit
  }

  /**
   * `xs[:limit]` when the list is limited, else `xs`. Zero means no limit;
   * a negative limit, always below the length, drops items from the end.
   */
  function ApplyLimit<T>(xs: seq<T>, limit: int): (r: seq<T>)
    ensures |r| <= |xs| && r == xs[..|r|]
    ensures limit == 0 ==> r == xs
    ensures limit > 0 ==> |r| <= limit
    ensures limit > 0 ==> (|r| < |xs| <==> Limited(|xs|, limit))
    ensures limit < 0 ==> |r| == if |xs| + limit > 0 then |xs| + limit else 0
  {
    if Limited(|xs|, limit) then SliceTo(xs, limit) else xs
  }

  // ---------------------------------------------------------------------------
  // `_extract_sections_from_document`
  // ---------------------------------------------------------------------------

  /** `if section_filter:` — a filter that is given and non-empty. */
  predicate FilterGiven(filter: Option<string>) {
    filter.Some? && filter.value != []
  }

  /** Whether a section is listed: always without a filter, else when its title contains the filter, ignoring case. */
  predicate Selected(e: SectionEntry, filter: Option<string>) {
    !FilterGiven(filter) || ContainsIgnoreCase(e.section.title, filter.value)
  }

  /** One `section_data` dict of the answer. */
  datatype SectionData = SectionData(
    key: string,
    title: string,
    level: int,
    content: string,
    wordCount: nat,
    characterCount: nat,
    parentSection: Option<string>,
    subsections: seq<string>)

  /**
   * The `section_data` of one entry: the mapping key beside the section's
   * fields, with a missing `subsections` list read as empty.
   */
  function DataOf(e: SectionEntry): (d: SectionData)
    ensures d.key == e.key && d.title == e.section.title && d.level == e.section.level
    ensures d.content == e.section.content && d.wordCount == e.section.wordCount
    ensures d.characterCount == e.section.characterCount && d.parentSection == e.section.parentSection
    ensures e.section.subsections.None? ==> d.subsections == []
    ensures e.section.subsections.Some? ==> d.subsections == e.section.subsections.value
  {
    SectionData(e.key, e.section.title, e.section.level, e.section.content, e.section.wordCount,
      e.section.characterCount, e.section.parentSection, e.section.subsections.GetOr([]))
  }

  /** The loop over `all_sections.items()`: the selected sections, in mapping order. */
  function SelectSections(sections: seq<SectionEntry>, filter: Option<string>): (r: seq<SectionData>)
    ensures |r| <= |sections|
    ensures FilterGiven(filter) ==> forall k :: 0 <= k < |r| ==> ContainsIgnoreCase(r[k].title, filter.value)
    ensures !FilterGiven(filter) ==> |r| == |sections| && forall k :: 0 <= k < |r| ==> r[k] == DataOf(sections[k])
    decreases |sections|
  {
    if sections == [] then []
    else (if Selected(sections[0], filter) then [DataOf(sections[0])] else []) + SelectSections(sections[1..], filter)
  }

  lemma AppendAssoc<T>(x: seq<T>, y: seq<T>, z: seq<T>)
    ensures x + (y + z) == (x + y) + z
  {
  }

  /** Selecting from two runs of sections is selecting from each, in order. */
  lemma {:induction false} SelectAppend(a: seq<SectionEntry>, b: seq<SectionEntry>, filter: Option<string>)
    ensures SelectSections(a + b, filter) == SelectSections(a, filter) + SelectSections(b, filter)
    decreases |a|
  {
    if a == [] {
      assert a + b == b;
    } else {
      var ab := a + b;
      assert ab[0] == a[0];
      assert ab[1..] == a[1..] + b;
      SelectAppend(a[1..], b, filter);
      var head: seq<SectionData> := if Selected(a[0], filter) then [DataOf(a[0])] else [];
      assert SelectSections(ab, filter) == head + SelectSections(a[1..] + b, filter);
      assert SelectSections(a, filter) == head + SelectSections(a[1..], filter);
      AppendAssoc(head, SelectSections(a[1..], filter), SelectSections(b, filter));
    }
  }

  /** Every section the filter lets through is listed. */
  lemma {:induction false} SelectedAreListed(sections: seq<SectionEntry>, filter: Option<string>)
    ensures forall j :: 0 <= j < |sections| && Selected(sections[j], filter) ==> DataOf(sections[j]) in SelectSections(sections, filter)
    decreases |sections|
  {
    if sections != [] {
      var head: seq<SectionData> := if Selected(sections[0], filter) then [DataOf(sections[0])] else [];
      var tail := SelectSections(sections[1..], filter);
      assert SelectSections(sections, filter) == head + tail;
      SelectedAreListed(sections[1..], filter);
      forall j | 1 <= j < |sections| && Selected(sections[j], filter) ensures DataOf(sections[j]) in tail {
        assert sections[1..][j - 1] == sections[j];
      }
    }
  }

  /** `d` is the data of a section of the mapping that the filter lets through. */
  predicate ListedFrom(sections: seq<SectionEntry>, filter: Option<string>, d: SectionData) {
    exists j :: 0 <= j < |sections| && Selected(sections[j], filter) && d == DataOf(sections[j])
  }

  /** The section listed at position `k` comes from a section the filter lets through. */
  lemma {:induction false} ListedAt(sections: seq<SectionEntry>, filter: Option<string>, k: nat)
    requires k < |SelectSections(sections, filter)|
    ensures ListedFrom(sections, filter, SelectSections(sections, filter)[k])
    decreases |sections|
  {
    var r := SelectSections(sections, filter);
    var head: seq<SectionData> := if Selected(sections[0], filter) then [DataOf(sections[0])] else [];
    var tail := SelectSections(sections[1..], filter);
    assert r == head + tail;
    if k < |head| {
      assert Selected(sections[0], filter) && r[k] == DataOf(sections[0]);
    } else {
      ListedAt(sections[1..], filter, k - |head|);
      ListedFromTail(sections, filter, tail[k - |head|]);
      assert r[k] == tail[k - |head|];
    }
  }

  lemma ListedFromTail(sections: seq<SectionEntry>, filter: Option<string>, d: SectionData)
    requires sections != [] && ListedFrom(sections[1..], filter, d)
    ensures ListedFrom(sections, filter, d)
  {
    var j :| 0 <= j < |sections[1..]| && Selected(sections[1..][j], filter) && d == DataOf(sections[1..][j]);
    assert sections[1..][j] == sections[j + 1];
  }

  /** Every listed section is one the filter lets through. */
  lemma {:induction false} ListedAreSelected(sections: seq<SectionEntry>, filter: Option<string>)
    ensures forall k :: 0 <= k < |SelectSections(sections, filter)| ==> ListedFrom(sections, filter, SelectSections(sections, filter)[k])
  {
    forall k | 0 <= k < |SelectSections(sections, filter)|
      ensures ListedFrom(sections, filter, SelectSections(sections, filter)[k])
    {
      ListedAt(sections, filter, k);
    }
  }

  /** Listed sections keep the order of the `sections` mapping. */
  lemma SelectKeepsOrder(sections: seq<SectionEntry>, filter: Option<string>, i: nat, j: nat)
    requires i < j < |sections| && Selected(sections[i], filter) && Selected(sections[j], filter)
    ensures exists p, q :: (0 <= p < q < |SelectSections(sections, filter)|
      && SelectSections(sections, filter)[p] == DataOf(sections[i])
      && SelectSections(sections, filter)[q] == DataOf(sections[j]))
  {
    var before := sections[..j];
    var after := sections[j..];
    assert sections == before + after;
    SelectAppend(before, after, filter);
    SelectedAreListed(before, filter);
    assert before[i] == sections[i];
    var first := SelectSections(before, filter);
    var p :| 0 <= p < |first| && first[p] == DataOf(sections[i]);
    assert after[0] == sections[j];
    assert SelectSections(after, filter)[0] == DataOf(sections[j]);
    var r := SelectSections(sections, filter);
    assert r[p] == DataOf(sections[i]);
    assert r[|first|] == DataOf(sections[j]);
  }

  /** The `document_info` part: `summary` is `None` when a filter is given. */
  datatype DocumentInfo = DocumentInfo(title: string, url: string, summary: Option<string>)

  datatype SectionsData = SectionsData(info: DocumentInfo, sections: seq<SectionData>)

  /**
   * `_extract_sections_from_document(document, section_filter, limit)`:
   * the selected sections cut to the limit, and the document's title, top-level
   * `url` and (without a filter) summary.
   */
  function ExtractSections(doc: Document, filter: Option<string>, limit: int): (r: SectionsData)
    ensures doc.query.Some? ==> r.info.title == doc.query.value
    ensures doc.query.None? ==> r.info.title == "Unknown"
    ensures doc.url.Some? ==> r.info.url == doc.url.value
    ensures doc.url.None? ==> r.info.url == ""
    ensures r.info.summary.None? <==> FilterGiven(filter)
    ensures r.info.summary.Some? ==> r.info.summary.value == doc.summary
    ensures |r.sections| <= |SelectSections(doc.sections, filter)|
    ensures r.sections == SelectSections(doc.sections, filter)[..|r.sections|]
    ensures limit > 0 ==> |r.sections| <= limit
    ensures limit == 0 ==> r.sections == SelectSections(doc.sections, filter)
    ensures FilterGiven(filter) ==> forall k :: 0 <= k < |r.sections| ==> ContainsIgnoreCase(r.sections[k].title, filter.value)
    ensures !FilterGiven(filter) && limit == 0 ==>
      |r.sections| == |doc.sections| && forall k :: 0 <= k < |r.sections| ==> r.sections[k] == DataOf(doc.sections[k])
  {
    var listed := SelectSections(doc.sections, filter);
    var info := DocumentInfo(
      doc.query.GetOr("Unknown"),
      doc.url.GetOr(""),
      if FilterGiven(filter) then None else Some(doc.summary));
    SectionsData(info, ApplyLimit(listed, limit))
  }

  // ---------------------------------------------------------------------------
  // The result object
  // ---------------------------------------------------------------------------

  /** `result["metadata"]`: the three flags it starts with and the keys the handlers add. */
  datatype Metadata = Metadata(
    databaseChecked: bool,
    wikipediaFetched: bool,
    cached: bool,
    limited: Option<bool>,
    totalFound: Option<nat>,
    totalMatches: Option<nat>,
    searchScope: Option<string>,
    sectionsCount: Option<nat>,
    sectionsReturned: Option<nat>,
    sectionFilter: Option<Option<string>>)

  /** All flags false and no other key. */
  const InitialMetadata := Metadata(false, false, false, None, None, None, None, None, None, None)

  /** `result["data"]`, one variant per handler. */
  datatype Payload =
    | NoData
    | Listing(documents: seq<DocumentSummary>)
    | CollectionStats(stats: CollectionStatistics)
    | SearchResults(results: seq<Search.SearchResult>)
    | FullDocument(record: StoredDocument)
    | SectionsPayload(extracted: SectionsData)

  /** The whole `result` dict as a value. */
  datatype Response = Response(
    status: string,
    operation: string,
    query: string,
    data: Payload,
    error: Option<string>,
    metadata: Metadata,
    timestamp: string)

  /** The result dict as first built, before any handler runs. */
  function Initial(operation: string, query: string, timestamp: string): (r: Response)
    ensures r.status == "success" && r.data == NoData && r.error.None?
    ensures !r.metadata.databaseChecked && !r.metadata.wikipediaFetched && !r.metadata.cached
  {
    Response("success", operation, query, NoData, None, InitialMetadata, timestamp)
  }

  /** The operations the router knows. */
  predicate KnownOperation(operation: string) {
    operation == "list_documents" || operation == "get_statistics" || operation == "search_content"
    || operation == "fetch_document" || operation == "fetch_sections"
  }

  /** What `_handle_list_documents` leaves in the result. */
  function ListDocumentsResponse(records: seq<StoredDocument>, limit: int, r: Response): Response {
    var listed := ListWikipediaDocuments(records, true);
    var shown := ApplyLimit(listed, limit);
    r.(data := Listing(shown),
       metadata := r.metadata.(limited := Some(Limited(|listed|, limit)), totalFound := Some(|shown|), databaseChecked := true))
  }

  /** What `_handle_get_statistics` leaves in the result. */
  function StatisticsResponse(records: seq<StoredDocument>, r: Response): Response {
    r.(data := CollectionStats(GetCollectionStatistics(records)), metadata := r.metadata.(databaseChecked := true))
  }

  /** What `_handle_search_content` leaves in the result. */
  function SearchResponse(records: seq<StoredDocument>, query: string, scope: string, limit: int, r: Response): Response {
    var found := Search.SearchContent(records, query, scope);
    var shown := ApplyLimit(found, limit);
    r.(data := SearchResults(shown),
       metadata := r.metadata.(limited := Some(Limited(|found|, limit)), totalMatches := Some(|shown|),
                               databaseChecked := true, searchScope := Some(scope)))
  }

  /** The document-dependent part of `_handle_fetch_operations`, once a document is in hand. */
  function Deliver(record: StoredDocument, operation: string, filter: Option<string>, limit: int, r: Response): Response {
    if operation == "fetch_document" then
      r.(data := FullDocument(record), metadata := r.metadata.(sectionsCount := Some(|record.doc.sections|)))
    else if operation == "fetch_sections" then
      var extracted := ExtractSections(record.doc, filter, limit);
      r.(data := SectionsPayload(extracted),
         metadata := r.metadata.(sectionsReturned := Some(|extracted.sections|), sectionFilter := Some(filter)))
    else r
  }

  // ---------------------------------------------------------------------------
  // Fetching from Wikipedia
  // ---------------------------------------------------------------------------

  /** An existing Wikipedia page, as the client library reports it. */
  datatype Page = Page(title: string, url: string, summary: string, fullText: string, sections: seq<WikiSection>)

  /** The `datetime.now()` readings of one request, in the order they are taken. */
  datatype Clock = Clock(resultStamp: string, articleStamp: string, fileStamp: string, storedAt: string)

  /** `get_full_text(query, 'wiki')` on an existing page; the format is `'wiki'.lower()`. */
  function ArticleFor(page: Page, query: string, timestamp: string): (a: Article)
    ensures a.query == query && a.format == "wiki" && a.timestamp == timestamp
  {
    Article(page.title, query, page.url, "wiki", timestamp, page.summary, page.fullText, page.sections)
  }

  /** `os.path.join("temp", filename)` for the generated structured `wiki` file name. */
  function SavedPath(query: string, fileStamp: string): string {
    "temp/" + FullTextFilename(query, "wiki", true, fileStamp)
  }

  /** What `_fetch_from_wikipedia_and_store` leaves behind: the collection, whether an id came back, the document read back. */
  datatype Fetched = Fetched(records: seq<StoredDocument>, nextId: nat, stored: bool, document: Option<StoredDocument>)

  /**
   * `_fetch_from_wikipedia_and_store`: with no page there is nothing to do;
   * otherwise the saved markdown file is stored without prompting, which
   * always yields an id, and the document is looked up again by the query.
   */
  function FetchAndStore(records: seq<StoredDocument>, nextId: nat, wiki: map<string, Page>, query: string, clock: Clock): (f: Fetched)
    ensures query !in wiki ==> f == Fetched(records, nextId, false, None)
    ensures query in wiki ==> f.stored
    ensures f.document.Some? ==> query != [] && f.document.value in f.records && TitleMatches(f.document.value, query)
  {
    if query !in wiki then Fetched(records, nextId, false, None)
    else
      var content := MarkdownFile(ArticleFor(wiki[query], query, clock.articleStamp), true);
      var o := StoreOutcome(records, nextId, Parse(content), Some(SavedPath(query, clock.fileStamp)), NonInteractive, clock.storedAt);
      if o.id.Some? then Fetched(o.records, o.nextId, true, GetWikipediaDocument(o.records, Some(query), None))
      else Fetched(o.records, o.nextId, false, None)
  }

  /**
   * The saved file parses back to a document under the query, so the
   * lookup after storing finds a document whose title holds the query.
   */
  lemma FetchedIsRetrievable(records: seq<StoredDocument>, nextId: nat, wiki: map<string, Page>, query: string, clock: Clock)
    requires query in wiki && query != [] && Trimmed(query) && '\n' !in query
    requires '\n' !in wiki[query].title && '\n' !in wiki[query].url
    requires clock.articleStamp != [] && Trimmed(clock.articleStamp) && '\n' !in clock.articleStamp
    ensures FetchAndStore(records, nextId, wiki, query, clock).document.Some?
  {
    var a := ArticleFor(wiki[query], query, clock.articleStamp);
    var body := MarkdownBody(a, true);
    assert Trimmed("wiki");
    HeaderRoundTrip(a, true, body);
    var d := Parse(MarkdownFile(a, true));
    assert d.query == Some(query);
    assert LookupValue(d, QueryField) == d.query;
    var o := StoreOutcome(records, nextId, d, Some(SavedPath(query, clock.fileStamp)), NonInteractive, clock.storedAt);
    var k := StoredRecordIndex(records, nextId, d, Some(SavedPath(query, clock.fileStamp)), NonInteractive, clock.storedAt);
    StoredQueryRetrievable(o.records, k, query);
  }

  /** What `_handle_fetch_operations` leaves in the result, and the collection after it. */
  datatype Answer = Answer(response: Response, records: seq<StoredDocument>, nextId: nat)

  /**
   * `_handle_fetch_operations`, given what the first lookup `found` and
   * what fetching and storing would give: mark `cached` when found, else
   * use the fetched document; with none, an error naming the query.
   */
  function FetchResponse(records: seq<StoredDocument>, nextId: nat, found: Option<StoredDocument>, fetched: Fetched,
                         query: string, operation: string, filter: Option<string>, limit: int, r: Response): Answer
  {
    var checked := r.(metadata := r.metadata.(databaseChecked := true));
    if found.Some? then
      Answer(Deliver(found.value, operation, filter, limit, checked.(metadata := checked.metadata.(cached := true))), records, nextId)
    else
      var after := if fetched.stored then checked.(metadata := checked.metadata.(wikipediaFetched := true)) else checked;
      if fetched.document.None? then
        Answer(after.(status := "error", error := Some("Could not retrieve information for: " + query)), fetched.records, fetched.nextId)
      else
        Answer(Deliver(fetched.document.value, operation, filter, limit, after), fetched.records, fetched.nextId)
  }

  /** `query_wikipedia_knowledge`: the response to one request and the collection after it. */
  function Respond(records: seq<StoredDocument>, nextId: nat, wiki: map<string, Page>, query: string, operation: string,
                   filter: Option<string>, scope: string, limit: int, clock: Clock): Answer
  {
    var r := Initial(operation, query, clock.resultStamp);
    if operation == "list_documents" then Answer(ListDocumentsResponse(records, limit, r), records, nextId)
    else if operation == "get_statistics" then Answer(StatisticsResponse(records, r), records, nextId)
    else if operation == "search_content" then Answer(SearchResponse(records, query, scope, limit, r), records, nextId)
    else if operation == "fetch_document" || operation == "fetch_sections" then
      FetchResponse(records, nextId, GetWikipediaDocument(records, Some(query), None),
        FetchAndStore(records, nextId, wiki, query, clock), query, operation, filter, limit, r)
    else Answer(r.(status := "error", error := Some("Unknown operation: " + operation)), records, nextId)
  }

  // ---------------------------------------------------------------------------
  // Properties of a request
  // ---------------------------------------------------------------------------

  /** An unknown operation is an error naming it, with no data, every flag false and the collection untouched. */
  lemma UnknownOperationIsError(records: seq<StoredDocument>, nextId: nat, wiki: map<string, Page>, query: string, operation: string,
                                filter: Option<string>, scope: string, limit: int, clock: Clock)
    requires !KnownOperation(operation)
    ensures var a := Respond(records, nextId, wiki, query, operation, filter, scope, limit, clock);
      && a.response.status == "error"
      && a.response.error == Some("Unknown operation: " + operation)
      && a.response.data == NoData
      && !a.response.metadata.databaseChecked && !a.response.metadata.wikipediaFetched && !a.response.metadata.cached
      && a.records == records && a.nextId == nextId
  {
  }

  /** Only the fetch operations can change the collection. */
  lemma OnlyFetchesStore(records: seq<StoredDocument>, nextId: nat, wiki: map<string, Page>, query: string, operation: string,
                         filter: Option<string>, scope: string, limit: int, clock: Clock)
    requires operation != "fetch_document" && operation != "fetch_sections"
    ensures var a := Respond(records, nextId, wiki, query, operation, filter, scope, limit, clock);
      a.records == records && a.nextId == nextId
  {
  }

  /**
   * A listing is a prefix of the full listing, `limited` exactly when that
   * was longer than a non-zero limit, and `total_found` is what was returned.
   */
  lemma ListingIsLimited(records: seq<StoredDocument>, limit: int, r: Response)
    ensures var res := ListDocumentsResponse(records, limit, r);
      var all := ListWikipediaDocuments(records, true);
      && res.status == r.status && res.metadata.databaseChecked
      && res.data.Listing?
      && res.data.documents == all[..|res.data.documents|]
      && res.metadata.totalFound == Some(|res.data.documents|)
      && res.metadata.limited == Some(limit != 0 && |records| > limit)
      && (limit > 0 ==> |res.data.documents| <= limit)
      && (limit >= 0 ==> (|res.data.documents| < |records| <==> res.metadata.limited == Some(true)))
  {
  }

  /**
   * Search results are a prefix of `search_content`'s, `limited` exactly
   * when those were more than a non-zero limit, and `total_matches` is what
   * was returned.
   */
  lemma SearchIsLimited(records: seq<StoredDocument>, query: string, scope: string, limit: int, r: Response)
    ensures var res := SearchResponse(records, query, scope, limit, r);
      var all := Search.SearchContent(records, query, scope);
      && res.status == r.status && res.metadata.databaseChecked
      && res.metadata.searchScope == Some(scope)
      && res.data.SearchResults?
      && res.data.results == all[..|res.data.results|]
      && res.metadata.totalMatches == Some(|res.data.results|)
      && res.metadata.limited == Some(limit != 0 && |all| > limit)
      && (limit > 0 ==> |res.data.results| <= limit)
      && (limit >= 0 ==> (|res.data.results| < |all| <==> res.metadata.limited == Some(true)))
  {
  }

  /**
   * A fetch operation's request goes to the fetch handler with the first
   * lookup and what fetching would give.
   */
  lemma RespondToFetch(records: seq<StoredDocument>, nextId: nat, wiki: map<string, Page>, query: string, operation: string,
                       filter: Option<string>, scope: string, limit: int, clock: Clock)
    requires operation == "fetch_document" || operation == "fetch_sections"
    ensures Respond(records, nextId, wiki, query, operation, filter, scope, limit, clock)
      == FetchResponse(records, nextId, GetWikipediaDocument(records, Some(query), None),
           FetchAndStore(records, nextId, wiki, query, clock), query, operation, filter, limit,
           Initial(operation, query, clock.resultStamp))
  {
    FetchIsNoOtherOperation(operation);
  }

  /** The two fetch operations are none of the other three. */
  lemma FetchIsNoOtherOperation(operation: string)
    requires operation == "fetch_document" || operation == "fetch_sections"
    ensures operation != "list_documents" && operation != "get_statistics" && operation != "search_content"
  {
    assert operation[0] == 'f';
  }

  /**
   * A fetch with an empty query finds nothing in the collection and gets
   * nothing back from storing, so it ends in the "could not retrieve" error.
   */
  lemma EmptyQueryFetchFails(records: seq<StoredDocument>, nextId: nat, wiki: map<string, Page>, operation: string,
                             filter: Option<string>, scope: string, limit: int, clock: Clock)
    requires operation == "fetch_document" || operation == "fetch_sections"
    ensures var a := Respond(records, nextId, wiki, [], operation, filter, scope, limit, clock);
      && a.response.status == "error"
      && a.response.error == Some("Could not retrieve information for: ")
  {
    RespondToFetch(records, nextId, wiki, [], operation, filter, scope, limit, clock);
    assert GetWikipediaDocument(records, Some([]), None).None?;
    assert FetchAndStore(records, nextId, wiki, [], clock).document.None?;
    assert "Could not retrieve information for: " + [] == "Could not retrieve information for: ";
  }

  /**
   * A document found in the collection is served from it: `cached`,
   * nothing fetched, nothing stored.
   */
  lemma CachedDocumentIsServed(records: seq<StoredDocument>, nextId: nat, found: Option<StoredDocument>, fetched: Fetched,
                               query: string, operation: string, filter: Option<string>, limit: int, r: Response)
    requires found.Some?
    ensures var a := FetchResponse(records, nextId, found, fetched, query, operation, filter, limit, r);
      && a.response.status == r.status
      && a.response.metadata.databaseChecked && a.response.metadata.cached
      && a.response.metadata.wikipediaFetched == r.metadata.wikipediaFetched
      && a.records == records && a.nextId == nextId
  {
  }

  /**
   * Without a document in the collection the fetched one is used: not
   * `cached`, `wikipedia_fetched` when an id came back, and an error naming
   * the query exactly when no document came back.
   */
  lemma MissingDocumentIsFetched(records: seq<StoredDocument>, nextId: nat, found: Option<StoredDocument>, fetched: Fetched,
                                 query: string, operation: string, filter: Option<string>, limit: int, r: Response)
    requires found.None? && r.status == "success" && !r.metadata.cached
    ensures var a := FetchResponse(records, nextId, found, fetched, query, operation, filter, limit, r);
      && a.response.metadata.databaseChecked && !a.response.metadata.cached
      && a.response.metadata.wikipediaFetched == (r.metadata.wikipediaFetched || fetched.stored)
      && (a.response.status == "error" <==> fetched.document.None?)
      && (a.response.status == "error" ==>
            a.response.error == Some("Could not retrieve information for: " + query) && a.response.data == r.data)
      && a.records == fetched.records && a.nextId == fetched.nextId
  {
  }

  /**
   * A page that exists is served: if the collection did not have it, the
   * stored copy is read back, and its title holds the query.
   */
  lemma FetchedPageIsServed(records: seq<StoredDocument>, nextId: nat, wiki: map<string, Page>, query: string, clock: Clock)
    requires query in wiki && query != [] && Trimmed(query) && '\n' !in query
    requires '\n' !in wiki[query].title && '\n' !in wiki[query].url
    requires clock.articleStamp != [] && Trimmed(clock.articleStamp) && '\n' !in clock.articleStamp
    ensures var found := GetWikipediaDocument(records, Some(query), None);
      var f := FetchAndStore(records, nextId, wiki, query, clock);
      var a := FetchResponse(records, nextId, found, f, query, "fetch_document", None, 0, Initial("fetch_document", query, clock.resultStamp));
      && a.response.status == "success"
      && a.response.data.FullDocument?
      && a.response.data.record in a.records
      && TitleMatches(a.response.data.record, query)
      && a.response.metadata.sectionsCount == Some(|a.response.data.record.doc.sections|)
  {
    var found := GetWikipediaDocument(records, Some(query), None);
    var f := FetchAndStore(records, nextId, wiki, query, clock);
    if found.None? {
      FetchedIsRetrievable(records, nextId, wiki, query, clock);
    }
    DocumentInHandIsServed(records, nextId, found, f, query, Initial("fetch_document", query, clock.resultStamp));
  }

  /** `fetch_document` with a matching document in hand, cached or fetched, serves that document whole. */
  lemma DocumentInHandIsServed(records: seq<StoredDocument>, nextId: nat, found: Option<StoredDocument>, f: Fetched,
                               query: string, r: Response)
    requires r.status == "success"
    requires found.Some? ==> found.value in records && TitleMatches(found.value, query)
    requires found.None? ==> f.document.Some? && f.document.value in f.records && TitleMatches(f.document.value, query)
    ensures var a := FetchResponse(records, nextId, found, f, query, "fetch_document", None, 0, r);
      && a.response.status == "success"
      && a.response.data.FullDocument?
      && a.response.data.record in a.records
      && TitleMatches(a.response.data.record, query)
      && a.response.metadata.sectionsCount == Some(|a.response.data.record.doc.sections|)
  {
  }

  /**
   * A successful `fetch_sections` returns at most `limit` sections (for a
   * positive limit), each titled with the filter when one is given; the
   * summary is left out exactly when a filter is given.
   */
  lemma SectionsFollowFilter(records: seq<StoredDocument>, nextId: nat, found: Option<StoredDocument>, fetched: Fetched,
                             query: string, filter: Option<string>, limit: int, r: Response)
    requires r.status == "success"
    requires FetchResponse(records, nextId, found, fetched, query, "fetch_sections", filter, limit, r).response.status == "success"
    ensures var a := FetchResponse(records, nextId, found, fetched, query, "fetch_sections", filter, limit, r);
      && a.response.data.SectionsPayload?
      && a.response.metadata.sectionsReturned == Some(|a.response.data.extracted.sections|)
      && a.response.metadata.sectionFilter == Some(filter)
      && (a.response.data.extracted.info.summary.None? <==> FilterGiven(filter))
      && (limit > 0 ==> |a.response.data.extracted.sections| <= limit)
      && (FilterGiven(filter) ==> forall k :: 0 <= k < |a.response.data.extracted.sections| ==>
            ContainsIgnoreCase(a.response.data.extracted.sections[k].title, filter.value))
  {
  }

  /** Fetching and storing keeps the collection's id invariant and adds at most one document. */
  lemma FetchKeepsValid(records: seq<StoredDocument>, nextId: nat, wiki: map<string, Page>, query: string, clock: Clock)
    requires ValidCollection(records, nextId)
    ensures var f := FetchAndStore(records, nextId, wiki, query, clock);
      ValidCollection(f.records, f.nextId) && |f.records| <= |records| + 1
  {
    if query in wiki {
      var d := Parse(MarkdownFile(ArticleFor(wiki[query], query, clock.articleStamp), true));
      var path := Some(SavedPath(query, clock.fileStamp));
      StoreKeepsValid(records, nextId, d, path, NonInteractive, clock.storedAt);
      StoreCounts(records, nextId, d, path, NonInteractive, clock.storedAt);
    }
  }

  // ---------------------------------------------------------------------------
  // The handlers, updating the result in place
  // ---------------------------------------------------------------------------

  /** The `result` dict that the handlers fill in. */
  class QueryResult {
    var status: string
    var operation: string
    var query: string
    var data: Payload
    var error: Option<string>
    var metadata: Metadata
    var timestamp: string

    /** The dict as a value. */
    function Contents(): Response
      reads this
    {
      Response(status, operation, query, data, error, metadata, timestamp)
    }

    constructor(operation: string, query: string, timestamp: string)
      ensures Contents() == Initial(operation, query, timestamp)
    {
      this.status := "success";
      this.operation := operation;
      this.query := query;
      this.data := NoData;
      this.error := None;
      this.metadata := InitialMetadata;
      this.timestamp := timestamp;
    }
  }

  /** `_handle_list_documents(storage, limit, result)` */
  method HandleListDocuments(store: WikipediaStore, limit: int, result: QueryResult)
    modifies result
    ensures result.Contents() == ListDocumentsResponse(store.records, limit, old(result.Contents()))
  {
    var documents := ListWikipediaDocuments(store.records, true);
    if limit != 0 && |documents| > limit {
      documents := SliceTo(documents, limit);
      result.metadata := result.metadata.(limited := Some(true));
    } else {
      result.metadata := result.metadata.(limited := Some(false));
    }
    result.data := Listing(documents);
    result.metadata := result.metadata.(totalFound := Some(|documents|));
    result.metadata := result.metadata.(databaseChecked := true);
  }

  /** `_handle_get_statistics(storage, result)` */
  method HandleGetStatistics(store: WikipediaStore, result: QueryResult)
    modifies result
    ensures result.Contents() == StatisticsResponse(store.records, old(result.Contents()))
  {
    var stats := GetCollectionStatistics(store.records);
    result.data := CollectionStats(stats);
    result.metadata := result.metadata.(databaseChecked := true);
  }

  /** `_handle_search_content(storage, query, search_scope, limit, result)` */
  method HandleSearchContent(store: WikipediaStore, query: string, scope: string, limit: int, result: QueryResult)
    modifies result
    ensures result.Contents() == SearchResponse(store.records, query, scope, limit, old(result.Contents()))
  {
    var searchResults := Search.SearchContent(store.records, query, scope);
    if limit != 0 && |searchResults| > limit {
      searchResults := SliceTo(searchResults, limit);
      result.metadata := result.metadata.(limited := Some(true));
    } else {
      result.metadata := result.metadata.(limited := Some(false));
    }
    result.data := SearchResults(searchResults);
    result.metadata := result.metadata.(totalMatches := Some(|searchResults|));
    result.metadata := result.metadata.(databaseChecked := true);
    result.metadata := result.metadata.(searchScope := Some(scope));
  }

  /**
   * `_fetch_from_wikipedia_and_store(storage, query, result)`: search,
   * save the structured `wiki` markdown under `temp`, read it back, store
   * it without prompting and look the query up again.
   */
  method FetchFromWikipediaAndStore(store: WikipediaStore, wiki: map<string, Page>, query: string, clock: Clock, result: QueryResult)
    returns (document: Option<StoredDocument>)
    requires store.Valid()
    modifies store, result
    ensures var f := FetchAndStore(old(store.records), old(store.nextId), wiki, query, clock);
      && store.records == f.records && store.nextId == f.nextId && document == f.document
      && result.Contents() == if f.stored then old(result.Contents()).(metadata := old(result.metadata).(wikipediaFetched := true))
                              else old(result.Contents())
    ensures store.Valid()
  {
    if query !in wiki {
      return None;
    }
    var article := ArticleFor(wiki[query], query, clock.articleStamp);
    var path := SavedPath(query, clock.fileStamp);
    var content := MarkdownFile(article, true);
    var storageResult := store.StoreWikipediaDocument(content, Some(path), NonInteractive, clock.storedAt);
    if storageResult.Some? {
      result.metadata := result.metadata.(wikipediaFetched := true);
      document := GetWikipediaDocument(store.records, Some(query), None);
    } else {
      document := None;
    }
  }

  /** The "process the document based on operation" step of `_handle_fetch_operations`. */
  method ProcessDocument(record: StoredDocument, operation: string, filter: Option<string>, limit: int, result: QueryResult)
    modifies result
    ensures result.Contents() == Deliver(record, operation, filter, limit, old(result.Contents()))
  {
    if operation == "fetch_document" {
      result.data := FullDocument(record);
      result.metadata := result.metadata.(sectionsCount := Some(|record.doc.sections|));
    } else if operation == "fetch_sections" {
      var sectionsData := ExtractSections(record.doc, filter, limit);
      result.data := SectionsPayload(sectionsData);
      result.metadata := result.metadata.(sectionsReturned := Some(|sectionsData.sections|));
      result.metadata := result.metadata.(sectionFilter := Some(filter));
    }
  }

  /** `_handle_fetch_operations(storage, query, operation, section_filter, limit, result)` */
  method HandleFetchOperations(store: WikipediaStore, wiki: map<string, Page>, query: string, operation: string,
                               filter: Option<string>, limit: int, clock: Clock, result: QueryResult)
    requires store.Valid()
    modifies store, result
    ensures var a := FetchResponse(old(store.records), old(store.nextId), GetWikipediaDocument(old(store.records), Some(query), None),
      FetchAndStore(old(store.records), old(store.nextId), wiki, query, clock), query, operation, filter, limit, old(result.Contents()));
      result.Contents() == a.response && store.records == a.records && store.nextId == a.nextId
    ensures store.Valid()
  {
    var document := GetWikipediaDocument(store.records, Some(query), None);
    result.metadata := result.metadata.(databaseChecked := true);
    if document.Some? {
      result.metadata := result.metadata.(cached := true);
    } else {
      document := FetchFromWikipediaAndStore(store, wiki, query, clock, result);
      if document.None? {
        result.status := "error";
        result.error := Some("Could not retrieve information for: " + query);
        return;
      }
    }
    ProcessDocument(document.value, operation, filter, limit, result);
  }

  /** `query_wikipedia_knowledge(query, operation, section_filter, search_scope, limit)` */
  method QueryWikipediaKnowledge(store: WikipediaStore, wiki: map<string, Page>, query: string, operation: string,
                                 filter: Option<string>, scope: string, limit: int, clock: Clock)
    returns (result: QueryResult)
    requires store.Valid()
    modifies store
    ensures fresh(result)
    ensures var a := Respond(old(store.records), old(store.nextId), wiki, query, operation, filter, scope, limit, clock);
      result.Contents() == a.response && store.records == a.records && store.nextId == a.nextId
    ensures store.Valid()
  {
    result := new QueryResult(operation, query, clock.resultStamp);
    if operation == "list_documents" {
      HandleListDocuments(store, limit, result);
    } else if operation == "get_statistics" {
      HandleGetStatistics(store, result);
    } else if operation == "search_content" {
      HandleSearchContent(store, query, scope, limit, result);
    } else if operation == "fetch_document" || operation == "fetch_sections" {
      HandleFetchOperations(store, wiki, query, operation, filter, limit, clock, result);
    } else {
      result.status := "error";
      result.error := Some("Unknown operation: " + operation);
    }
  }
}
