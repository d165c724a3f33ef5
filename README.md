# Wikipedia knowledge store — a Dafny model

This project models the knowledge path of a quiz-game agent that answers questions
from Wikipedia articles it keeps in a MongoDB collection:

- `tools/wikipedia_tools.py` fetches an article and writes it as a structured
  markdown file: a title line, a `**Key:** value` metadata block, a `---`
  separator, then `## Summary` and the sections rendered as `#`-headings
  (modules `WikipediaTools` and `RoundTrip`).
- `mongo/wikipedia.py` parses such a file into a document: metadata, summary,
  sections keyed by a normalised title, a section hierarchy and statistics
  (modules `SectionKeys`, `Documents`, `Parser` and `ParserProperties`).
  It stores the document with duplicate handling (module `Store`). It retrieves,
  lists, summarises and searches the collection (modules `Retrieval` and `Search`).
- `mongodb_agent/agent.py` is the tool the agent calls (module `Agent`). It checks
  the database first. It falls back to Wikipedia and stores what it fetched. It
  returns a result record with a status, data and metadata flags.

`Text` holds the string primitives the Python code uses (strip, split, lower,
`find`) on ASCII characters. `Wrappers` holds `Option`.

Modelling choices:

- The parser is imperative in the source. It is a `DocumentBuilder` class driven by
  `Parser.ParseMarkdownContent`, whose loop is proved against the pure fold
  `Parser.Parse`.
- The collection is the class `Store.WikipediaStore`. Its records are a `seq` in
  insertion order, so `find_one` returns the first match. `nextId` hands out fresh ids.
- The agent's result dictionary is the class `Agent.QueryResult`. The handlers update
  it in place, and each is proved equal to a pure response function.
- Wikipedia is a snapshot `map<string, Page>` from query to page, passed in as a
  parameter. `search` and `get_full_text` read the same snapshot.
- Clocks are a `Clock` value of pre-formatted timestamps.
- Writing the markdown file and reading it back is modelled as the identity on its text
  (see "## Left out" for the one way the two can differ).

## Model

| member | source | states |
|---|---|---|
| Text.Lower | mongo/wikipedia.py:101 | result has the input's length, and each character is the lower-case form of the input character at the same position |
| Text.Strip | mongo/wikipedia.py:80 | result is no longer than the input, has no white space at either end, and keeps a first character that is not white space |
| Text.StripFacts | mongo/wikipedia.py:80 | the result is a contiguous slice of the input with only white space before and after it |
| Text.StripShortens | mongo/wikipedia.py:80 | a string with white space at either end loses at least one character |
| Text.CountWordsIsSplitLength | mongo/wikipedia.py:214 | the one-pass word counter agrees with the length of `str.split()` |
| Text.SplitLines | mongo/wikipedia.py:64 | splitting on newline yields at least one line, and no line contains a newline |
| Text.IndexOf | mongo/wikipedia.py:97 | returns the first position where the pattern occurs, or nothing when it occurs nowhere |
| Text.CollapseSpacesJoinsWords | mongo/wikipedia.py:249 | replacing each run of white space by one `_` in a text with no white space at either end gives the words of the text joined by `_` |
| SectionKeys.KeepWordAndSpace | mongo/wikipedia.py:248 | keeps exactly the word and white-space characters, in order, and keeps the input unchanged when it has nothing else |
| SectionKeys.NormalizeSectionKey | mongo/wikipedia.py:237-250 | every key character is a lower-case word character and none is white space |
| SectionKeys.NormalizeKeepsLeadingSpace | mongo/wikipedia.py:248-249 | a title that starts with white space gives a key that starts with `_` |
| SectionKeys.NormalizeKeepsTrailingSpace | mongo/wikipedia.py:248-249 | a title that ends with white space gives a key that ends with `_` |
| SectionKeys.NormalizeJoinsWords | mongo/wikipedia.py:248-249 | the key is the lower-cased words of the title, with other characters removed, joined by `_` |
| SectionKeys.NormalizeIdempotent | mongo/wikipedia.py:237-250 | normalising a key again changes nothing |
| Documents.Find | mongo/wikipedia.py:225 | finds the position of a section key, or reports that it is absent; with unique keys the position is the only one |
| Documents.Lookup | mongo/wikipedia.py:566-567 | a dictionary read: present exactly when the key is stored, and then it is the stored section |
| Documents.PutFacts | mongo/wikipedia.py:230 | a dictionary write: an existing key keeps its place, a new key is appended at the end, the key now reads the new section and every other key reads as before |
| Documents.AppendSubsectionFacts | mongo/wikipedia.py:225-228 | the parent's subsection list gains the new key at its end (created empty first), every other section is unchanged, and a missing parent changes nothing |
| Documents.FindParentSection | mongo/wikipedia.py:252-267 | returns the key of the last hierarchy entry whose level is smaller; none exactly when no entry has a smaller level |
| Documents.ParentOfNestedEntry | mongo/wikipedia.py:264-267 | examples: the parent of a level-4 section after levels 2,3,3 is the last level-3 entry, and a level-2 section has no parent |
| Documents.NewSection | mongo/wikipedia.py:206-215 | the section dict before linking; ParserProperties.NewSectionStored states its stripped content, counts, level and title |
| Documents.AttachSection | mongo/wikipedia.py:195-235 | adding a section keeps keys unique; AttachSectionFacts, AttachRecordsSubsection and AttachOverwritesOnCollision state its effect |
| Documents.AttachSectionFacts | mongo/wikipedia.py:206-235 | adding a section appends a hierarchy entry, stores the new section with its parent link under its normalised key, and leaves every other section except the parent unchanged |
| Documents.AttachRecordsSubsection | mongo/wikipedia.py:219-228 | when a parent exists, the new key is appended to the parent's subsections |
| Documents.AttachOverwritesOnCollision | mongo/wikipedia.py:230-235 | two titles with the same key leave one section (the later one) but two hierarchy entries |
| Documents.MaxLevel | mongo/wikipedia.py:302 | the largest level in the hierarchy, or 0 when it is empty |
| Documents.ComputeStatistics | mongo/wikipedia.py:296-303 | section count, word total over sections, character total including the summary, and the maximum hierarchy level |
| Documents.SummaryWordsNotCounted | mongo/wikipedia.py:298-301 | example: summary words count towards the characters but not the words |
| Documents.RecordMetadata | mongo/wikipedia.py:103-113 | the metadata key is set to the value; the keys `query`, `url`, `extract_format` and `extracted_on` also set the top-level `query`, `url`, `format` and `extracted_at`, which no other key changes; the body fields are unchanged |
| Documents.DocumentBuilder.constructor | mongo/wikipedia.py:65-72 | a new document is empty |
| Documents.DocumentBuilder.SetSummary | mongo/wikipedia.py:186-187 | only the summary changes |
| Documents.DocumentBuilder.SetMetadata | mongo/wikipedia.py:103-113 | the document becomes RecordMetadata of the old one |
| Documents.DocumentBuilder.AddSection | mongo/wikipedia.py:195-235 | the document becomes AttachSection of the old one, and its keys stay unique |
| Parser.MetadataKey | mongo/wikipedia.py:101 | a metadata key has no upper-case letter and no space |
| Parser.MetadataEntry | mongo/wikipedia.py:97-101 | an entry is read only when `:**` occurs after position 2; its key is normalised and its value stripped |
| Parser.ApplyMetadataLine | mongo/wikipedia.py:94-115 | a metadata line changes only the metadata fields |
| Parser.MatchMarkdownHeader | mongo/wikipedia.py:125 | a match has 2 to 6 leading `#` and a stripped title |
| Parser.CollectNextLines | mongo/wikipedia.py:153-156 | the loop collects the stripped non-blank lines among the next three |
| Parser.CheckPlainHeading | mongo/wikipedia.py:144-160 | the imperative heading test agrees with the heuristic LooksLikeHeading |
| Parser.SaveSection | mongo/wikipedia.py:185-191 | saving the pending lines is the Flush of the parse state |
| Parser.ProcessLine | mongo/wikipedia.py:80-183 | one loop iteration is one Step of the pure parser |
| Parser.ParseMarkdownContent | mongo/wikipedia.py:54-193 | the imperative parse returns exactly Parse(content) |
| ParserProperties.StepShape | mongo/wikipedia.py:80-183 | one step keeps the parse state well formed |
| ParserProperties.RunShape | mongo/wikipedia.py:79-191 | running to the end yields a well-formed document |
| ParserProperties.ParseShape | mongo/wikipedia.py:54-193 | every parsed section has level 2 and no parent, its key is the normalised title, its content is stripped, its counts match its content, and the keys are unique |
| ParserProperties.ParsedStatistics | mongo/wikipedia.py:296-303 | for a parsed document the section total is the number of sections, and the depth is 0 or 2 |
| ParserProperties.MetadataFixedAfterSeparator | mongo/wikipedia.py:94 | after `---` no line changes the metadata |
| ParserProperties.NoSeparatorNoContent | mongo/wikipedia.py:118-120 | without a `---` line there is no summary and no section |
| ParserProperties.RunSteps | mongo/wikipedia.py:79-183 | running from line `i` is running the lines `i..j` one step at a time and then from `j` |
| ParserProperties.TextBetweenSlice | mongo/wikipedia.py:178-181 | the lines buffered between two indices are the stripped lines of that slice that are not blank, not `#` lines and not `---` |
| ParserProperties.SummaryLinesBuffered | mongo/wikipedia.py:178-181 | after `---`, lines not taken for a plain-text heading collect in the `summary` buffer as their stripped text, blank, `#` and `---` lines adding nothing, and nothing else changes |
| ParserProperties.SummaryFromLeadingLines | mongo/wikipedia.py:160-187 | the summary is the stripped, newline-joined text lines after `---` up to the first line taken for a plain-text heading (or the end); `#` lines such as `## Summary` and rendered section headings are skipped, so in a written file the summary runs on through the section texts |
| ParserProperties.MetadataLineEntry | mongo/wikipedia.py:97-101 | `**Name:** value` is read as the normalised name and the stripped value |
| Parser.Flush | mongo/wikipedia.py:185-191 | saving keeps section keys unique; SaveSection is the loop's version and ParserProperties.FlushShape keeps the parsed shape |
| Parser.Step | mongo/wikipedia.py:80-183 | one line keeps section keys unique; ProcessLine is proved equal to it, and ParserProperties.StepShape, RenderedHeadingsIgnored and SummaryLineStep state what it does |
| Parser.Parse | mongo/wikipedia.py:54-193 | the document of the whole text; ParseMarkdownContent computes it, and ParseShape, ParsedStatistics, SummaryFromLeadingLines and HeaderRoundTrip state its properties |
| ParserProperties.NewSectionStored | mongo/wikipedia.py:206-216 | a new level-2 section is stored in the shape the parser promises |
| WikipediaTools.RemoveInvalidChars | tools/wikipedia_tools.py:23 | every character left is one of the input's and none of `<>:"/\|?*`; a text without them is unchanged |
| WikipediaTools.RemoveInvalidCharsAppend | tools/wikipedia_tools.py:23 | the substitution works character by character: a concatenation is filtered part by part |
| WikipediaTools.RemoveInvalidCharsOne | tools/wikipedia_tools.py:23 | one character is dropped exactly when it is one of `<>:"/\|?*`, so with the append lemma the valid characters are kept in order |
| WikipediaTools.StripUnderscores | tools/wikipedia_tools.py:26 | no `_` at either end, and only `_` removed |
| WikipediaTools.SanitizeFilename | tools/wikipedia_tools.py:20-26 | at most 50 characters, no invalid or white-space character, and no `_` at either end |
| WikipediaTools.SanitizeIdempotent | tools/wikipedia_tools.py:20-26 | sanitising again changes nothing |
| WikipediaTools.SanitizeJoinsWords | tools/wikipedia_tools.py:23-26 | a short clean query becomes its words joined by `_` |
| WikipediaTools.TruncateBeforeStrip | tools/wikipedia_tools.py:26 | truncation happens before stripping, so a `_` at position 50 makes the name shorter than 50 |
| WikipediaTools.HeadingMarks | tools/wikipedia_tools.py:102-103 | the heading has min(level, 6) `#` characters |
| WikipediaTools.HeadingLine | tools/wikipedia_tools.py:106 | a heading line starts with `#` |
| WikipediaTools.SectionBlocks | tools/wikipedia_tools.py:100-114 | a section's rendering starts with its heading |
| WikipediaTools.FormatSections | tools/wikipedia_tools.py:87-116 | the rendering is empty exactly for no sections and otherwise starts with a `#` heading; FormatSectionsIsBlocks and HeadingsInPreOrder give its whole text |
| WikipediaTools.FormatSectionsIsBlocks | tools/wikipedia_tools.py:87-116 | the recursive rendering is the concatenation of blank-line-terminated blocks |
| WikipediaTools.HeadingsInPreOrder | tools/wikipedia_tools.py:98-116 | the rendered headings list the section tree in pre-order, one level deeper per nesting and capped at 6 |
| WikipediaTools.HeaderBlocks | tools/wikipedia_tools.py:222-228 | the header is seven blocks ending with `---` |
| WikipediaTools.MarkdownHeader | tools/wikipedia_tools.py:222-228 | the seven header writes joined; RoundTrip.HeaderLinesAt places each of its lines |
| WikipediaTools.MarkdownBody | tools/wikipedia_tools.py:230-243 | `## Summary`, the summary and the rendered sections (or the placeholder) for the structured wiki format, else the raw text; RoundTrip.RenderedHeadingsIgnored and ParserProperties.SummaryFromLeadingLines say how it parses |
| WikipediaTools.MarkdownFile | tools/wikipedia_tools.py:221-243 | the whole written file; RoundTrip.HeaderRoundTrip shows its header parses back to the article's fields whatever the body, when those fields are single lines and the query, format and timestamp are non-empty and have no white space at either end |
| WikipediaTools.FullTextFilename | tools/wikipedia_tools.py:170-181 | the name starts with `wikipedia_fulltext_` and ends with `.html` for the html format and `.md` otherwise |
| RoundTrip.SplitJoinBlocks | tools/wikipedia_tools.py:222-228 | the written blocks read back, line by line, as each block followed by an empty line |
| RoundTrip.MetadataLineStep | mongo/wikipedia.py:94-115 | a written `**Name:** value` line is recorded under its key by one parse step |
| RoundTrip.MetadataBlocksRun | mongo/wikipedia.py:79-115 | before the separator, a block of `**Name:** value` lines each followed by a blank line records its fields in order, and parsing resumes after it |
| RoundTrip.HeaderFieldsRecorded | tools/wikipedia_tools.py:223-227 | the five written fields give the metadata of the written header |
| RoundTrip.HeaderLinesAt | tools/wikipedia_tools.py:222-228 | the header's lines are the title, the five field lines and `---`, each followed by an empty line |
| RoundTrip.HeaderRoundTrip | tools/wikipedia_tools.py:222-228 | parsing a written file recovers its metadata, query, url, format and timestamp, whatever the body, provided no header field holds a line break and the query, format and timestamp are non-empty with no white space at either end (the parser strips each value) |
| RoundTrip.HeaderMetadataQuery | tools/wikipedia_tools.py:223-224 | the stored query is the article's query, and the url is stored in markdown-link form |
| RoundTrip.RenderedHeadingsIgnored | mongo/wikipedia.py:83-85 | a rendered heading line at any level, `## Summary` included, leaves the parser state unchanged |
| RoundTrip.QueryKey | mongo/wikipedia.py:101-107 | the written field `Query` is read under the key `query` |
| RoundTrip.UrlKey | mongo/wikipedia.py:101-109 | the written field `URL` is read under the key `url` |
| Store.LookupValue | mongo/wikipedia.py:368 | a non-empty top-level value wins; otherwise a non-empty metadata value; nothing only when both are missing or empty |
| Store.FindOne | mongo/wikipedia.py:370 | returns the first record with that field value, or none when no record has it |
| Store.FindDuplicates | mongo/wikipedia.py:354-381 | at most one duplicate, taken from the collection |
| Store.NoDuplicatesIff | mongo/wikipedia.py:354-381 | there is no duplicate exactly when no record matches by query or url |
| Store.QueryDuplicateFirst | mongo/wikipedia.py:367-376 | a query match is found before any url match |
| Store.NewRecord | mongo/wikipedia.py:291-303 | a new record carries the document, its statistics, and a source file only when one is given |
| Store.RemoveId | mongo/wikipedia.py:323 | removes exactly the records with that id |
| Store.ReplaceById | mongo/wikipedia.py:330 | replaces the record with that id in place, keeping every position and id |
| Store.StoreOutcome | mongo/wikipedia.py:314-348 | the collection, counter and id after storing in a mode. StoreKeepsValid keeps the ids valid. StoreCounts gives sizes and ids for insert, add, skip and update. UpdateReplacesDuplicate covers an in-place update, interactive or default, with `updated_at`. OverwriteRemovesDuplicate covers delete-then-insert keeping the other records. StoredRecordIndex says the document is present unless skipped |
| Store.StoreKeepsValid | mongo/wikipedia.py:314-348 | ids stay unique and below the counter in every mode |
| Store.StoreCounts | mongo/wikipedia.py:314-348 | inserting adds one record and returns the new id, skip changes nothing, and update (and non-interactive mode) keeps the size and returns the existing id |
| Store.UpdateReplacesDuplicate | mongo/wikipedia.py:334-340 | the interactive `update` action and the non-interactive default replace the duplicate in place, keeping its id and position and setting `updated_at`, and leave the others alone |
| Store.OverwriteRemovesDuplicate | mongo/wikipedia.py:320-324 | overwrite deletes the duplicate, keeps every other record, and appends the new record under a new id |
| Store.StoredRecordIndex | mongo/wikipedia.py:314-348 | unless skipped, the document is in the collection afterwards |
| Store.StoredIsFound | mongo/wikipedia.py:314-348 | unless skipped, storing again finds a duplicate |
| Store.StoreTwiceNonInteractive | mongo/wikipedia.py:334-340 | storing the same content twice non-interactively does not grow the collection |
| Store.WikipediaStore.constructor | mongo/wikipedia.py:269-352 | a new store is empty and valid |
| Store.WikipediaStore.DeleteAll | mongo/wikipedia.py:322-323 | removes the given records' ids and keeps the store valid |
| Store.WikipediaStore.StoreWikipediaDocument | mongo/wikipedia.py:269-352 | the new state and the returned id are StoreOutcome of the parsed content, and the store stays valid |
| Retrieval.FindByTitle | mongo/wikipedia.py:527-535 | the first record whose query or metadata query contains the text, ignoring case |
| Retrieval.FindById | mongo/wikipedia.py:523-525 | the record with that id, or none |
| Retrieval.GetWikipediaDocument | mongo/wikipedia.py:501-544 | an id wins over a query; a query finds the first case-insensitive title match; with neither there is no result |
| Retrieval.StoredQueryRetrievable | mongo/wikipedia.py:526-535 | a stored query always retrieves a document whose title matches it |
| Retrieval.PaddedQueryMissesStrippedTitle | mongo/wikipedia.py:526-535 | a lookup by a query with white space at either end misses the document stored under the stripped query |
| Retrieval.FindByTitleIgnoringCase | mongo/wikipedia.py:570-572 | the first section whose title equals the text, ignoring case |
| Retrieval.SummarySection | mongo/wikipedia.py:576-582 | the synthesised summary section has level 1, the summary as content, and matching counts |
| Retrieval.SectionOf | mongo/wikipedia.py:563-584 | the key match comes first, then a title match, then the summary names; none only when all three fail |
| Retrieval.GetDocumentSection | mongo/wikipedia.py:546-560 | a missing document gives no section; a found one gives exactly SectionOf that document, so key, then title, then the summary names |
| Retrieval.SummaryNamesReadSummary | mongo/wikipedia.py:575-582 | `summary` and `introduction` read the summary when no section claims them |
| Retrieval.StoredTitleFound | mongo/wikipedia.py:563-572 | every stored section is found by its own title |
| Retrieval.SummaryPreview | mongo/wikipedia.py:479-481 | summaries over 200 characters are cut to 200 plus `...`, others are kept |
| Retrieval.ListingTitle | mongo/wikipedia.py:477 | the query when non-empty, else the metadata query when present, else `Unknown` |
| Retrieval.ListWikipediaDocuments | mongo/wikipedia.py:439-499 | one summary per record, in order, each with the record's listing title, url (or empty), summary preview and timestamps, and with statistics and the outline (title and level of each hierarchy entry, in order) exactly when asked for |
| Retrieval.ListedTitleRetrievable | mongo/wikipedia.py:526-535 | a listed title retrieves a document |
| Retrieval.MaxDepth | mongo/wikipedia.py:751 | the largest hierarchy depth in the collection |
| Retrieval.GetCollectionStatistics | mongo/wikipedia.py:717-772 | an empty collection gives the no-documents answer; otherwise the document count, the section, word and character totals over all records, and the maximum depth |
| Retrieval.InsertAddsToTotals | mongo/wikipedia.py:743-765 | inserting a new document adds its statistics to the totals |
| Search.WrapMatches | mongo/wikipedia.py:708-713 | the `re.sub` wrapping; SegmentKeepsText, WrapWithoutMatch and WrapFirstMatch determine it |
| Search.SegmentKeepsText | mongo/wikipedia.py:708-713 | splitting into matched and unmatched pieces loses no text |
| Search.WrapWithoutMatch | mongo/wikipedia.py:708-713 | with no match the excerpt is unchanged |
| Search.WrapFirstMatch | mongo/wikipedia.py:708-713 | the first match is wrapped in `**` with its original case, and the rest is processed after it |
| Search.ContextWindow | mongo/wikipedia.py:696-697 | the window holds the match, with up to 75 characters on either side, inside the text |
| Search.Excerpt | mongo/wikipedia.py:696-706 | the window text with `...` on a cut side; ContextWindow bounds the window and HighlightFirstMatch gives the highlighted excerpt |
| Search.HighlightText | mongo/wikipedia.py:688-694 | empty text or term gives the text; with no match the result is the first 150 characters plus `...`, or the text |
| Search.HighlightFirstMatch | mongo/wikipedia.py:692-715 | the result is the window around the first match, with `...` where truncated and the match wrapped in `**` |
| Search.ElemMatchMissesSections | mongo/wikipedia.py:623-630 | example: the `$elemMatch` filter on the sections mapping misses a section that contains the term |
| Search.SectionMatches | mongo/wikipedia.py:660-666 | only section matches, at most one per section; none exactly when no section contains the term |
| Search.SectionMatchesOne | mongo/wikipedia.py:660-666 | a section contributes `SectionMatch(title, highlighted content)` exactly when its content contains the term, else nothing |
| Search.SectionMatchesAppend | mongo/wikipedia.py:660-666 | matches are collected section by section in mapping order: the matches of a concatenation are the matches of its parts, concatenated |
| Search.MatchesOf | mongo/wikipedia.py:654-666 | a document's matches are its highlighted summary match first when the summary contains the term, then its section matches |
| Search.ResultFor | mongo/wikipedia.py:646-666 | the result has the record's id, its title or `Unknown`, the metadata url or the empty text, and its matches |
| Search.MatchKinds | mongo/wikipedia.py:654-666 | the summary match leads exactly when the summary contains the term, and there is a section match exactly when some section does |
| Search.SearchContent | mongo/wikipedia.py:590-674 | at most one result per stored document, using the intended `sections` filter (see Left out) |
| Search.SearchContentOne | mongo/wikipedia.py:645-668 | one record gives its ResultFor entry exactly when the filter accepts it, else nothing |
| Search.SearchContentAppend | mongo/wikipedia.py:645-668 | results follow collection order: searching a concatenation gives the results of each part, concatenated |
| Search.SearchContentChosen | mongo/wikipedia.py:590-674 | every result is the entry of a document the filter accepts |
| Search.SearchContentComplete | mongo/wikipedia.py:590-674 | every document the filter accepts has its entry among the results |
| Search.SectionsScopeFindsSections | mongo/wikipedia.py:623-630 | with the intended filter, the `sections` scope returns the documents with a matching section, and each has a section match |
| Search.SummariesScopeLeadsWithSummary | mongo/wikipedia.py:619-622 | in the `summaries` scope every result leads with a summary match |
| Agent.SliceTo | mongodb_agent/agent.py:102 | Python `xs[:n]`: a prefix of min(n, len) items, or len+n items when n is negative |
| Agent.ApplyLimit | mongodb_agent/agent.py:101-105 | a limit of 0 keeps everything; a positive limit keeps a prefix of at most that many and cuts exactly when there are more |
| Agent.DataOf | mongodb_agent/agent.py:288-297 | the section record copies every field, with no subsections read as an empty list |
| Agent.SelectSections | mongodb_agent/agent.py:284-312 | without a filter every section, in order; with one, only titles that contain it, ignoring case |
| Agent.SelectAppend | mongodb_agent/agent.py:286-298 | selection distributes over concatenation |
| Agent.SelectedAreListed | mongodb_agent/agent.py:286-298 | every section whose title contains the filter is selected |
| Agent.ListedAreSelected | mongodb_agent/agent.py:286-298 | every selected section comes from a section whose title contains the filter |
| Agent.SelectKeepsOrder | mongodb_agent/agent.py:286-298 | selected sections keep their document order |
| Agent.SearchResponse | mongodb_agent/agent.py:134-156 | the search handler's result; SearchIsLimited states its prefix, `limited` flag, `total_matches` and scope |
| Agent.Deliver | mongodb_agent/agent.py:193-204 | serving a found document by operation; FetchedPageIsServed and SectionsFollowFilter state its data and metadata |
| Agent.FetchResponse | mongodb_agent/agent.py:164-191 | the fetch flow from the lookup and the fetch; CachedDocumentIsServed, MissingDocumentIsFetched and EmptyQueryFetchFails state its cases |
| Agent.Respond | mongodb_agent/agent.py:22-93 | the routing by operation; UnknownOperationIsError, OnlyFetchesStore, ListingIsLimited, SearchIsLimited and FetchKeepsValid state it |
| Agent.ExtractSections | mongodb_agent/agent.py:273-325 | the title is the query or `Unknown`; the summary is given only without a filter; the sections are a prefix of the selection within the limit |
| Agent.Initial | mongodb_agent/agent.py:52-63 | a fresh result has status success, no data and all flags false |
| Agent.ArticleFor | tools/wikipedia_tools.py:72-82 | the article carries the page and the query, in the `wiki` format |
| Agent.FetchAndStore | mongodb_agent/agent.py:213-270 | an unknown page changes nothing; a known one is stored, and a document it returns is stored and matches the query |
| Agent.FetchedIsRetrievable | mongodb_agent/agent.py:232-263 | a fetched page written to markdown, parsed and stored is found again by its query, for a non-empty single-line query and timestamp with no white space at either end and a title and url without line breaks |
| Agent.UnknownOperationIsError | mongodb_agent/agent.py:84-87 | an unknown operation gives an error naming it, and the collection is unchanged |
| Agent.OnlyFetchesStore | mongodb_agent/agent.py:70-82 | listing, statistics and search leave the collection unchanged |
| Agent.ListingIsLimited | mongodb_agent/agent.py:96-111 | the listing is a prefix of all documents within the limit, flagged limited exactly when cut, and counted |
| Agent.SearchIsLimited | mongodb_agent/agent.py:134-156 | the search results are a prefix of all matches within the limit, flagged limited exactly when cut, with the scope recorded |
| Agent.CachedDocumentIsServed | mongodb_agent/agent.py:177-182 | a document already in the collection is served as cached, with no fetch |
| Agent.EmptyQueryFetchFails | mongodb_agent/agent.py:164-191 | a fetch operation with an empty query gives the error "Could not retrieve information for: " |
| Agent.MissingDocumentIsFetched | mongodb_agent/agent.py:183-191 | when nothing is cached, a success means the document came from Wikipedia |
| Agent.FetchedPageIsServed | mongodb_agent/agent.py:164-204 | a known page that is missing from the collection is stored and served in full, with its section count, under the same conditions on the query, timestamp, title and url as FetchedIsRetrievable |
| Agent.SectionsFollowFilter | mongodb_agent/agent.py:198-202 | `fetch_sections` returns only sections whose titles contain the filter, and records the filter |
| Agent.FetchKeepsValid | mongodb_agent/agent.py:164-270 | a fetch keeps the collection valid and adds at most one record |
| Agent.QueryResult.constructor | mongodb_agent/agent.py:52-63 | the new result is the initial response |
| Agent.HandleListDocuments | mongodb_agent/agent.py:96-116 | the result becomes ListDocumentsResponse of the collection |
| Agent.HandleGetStatistics | mongodb_agent/agent.py:119-131 | the result becomes StatisticsResponse of the collection |
| Agent.HandleSearchContent | mongodb_agent/agent.py:134-161 | the result becomes SearchResponse of the collection |
| Agent.FetchFromWikipediaAndStore | mongodb_agent/agent.py:213-270 | the store and the returned document are FetchAndStore's, the fetched flag is set exactly when stored, and the store stays valid |
| Agent.ProcessDocument | mongodb_agent/agent.py:193-204 | the result becomes Deliver of the document |
| Agent.HandleFetchOperations | mongodb_agent/agent.py:164-210 | the result is FetchResponse of the cached lookup and the fetch |
| Agent.QueryWikipediaKnowledge | mongodb_agent/agent.py:22-93 | the fresh result and the new store are those of Respond |

## Left out

- Search.SearchContent: the search, and therefore the agent's `search_content` (SearchResponse, HandleSearchContent, QueryWikipediaKnowledge), uses the intended `sections` clause (SearchFilter), not the `$elemMatch` on a mapping as written (SearchFilterAsWritten). In the scopes `sections` and `all` the model returns documents whose only match is in a section, which the code as written never returns; see Findings.

- Network access, the `wikipediaapi` client and its page objects: a page is a plain value looked up in a snapshot map.
- File-system writes and reads (`os.makedirs`, `open`): the text written is the text read back.
- Newline translation on reading: `open` in text mode turns a `\r` or `\r\n` in the written text into `\n`, while the model reads back exactly the text written. Page titles, summaries and section texts holding a carriage return can therefore split into more lines in the source than in the model.
- The HTML export branch of `save_full_text_to_markdown` and the raw-text fallback with the hierarchy switched off. The agent always writes `wiki` with the hierarchy kept.
- `datetime.now()`: timestamps are parameters.
- The MongoDB connection (`connect`, `is_connected`, `get_collection`), collection and database names, and `ObjectId` strings: ids are natural numbers.
- Every `except Exception` path: the model has no exceptions.
- `_prompt_duplicate_action`'s console loop: its answer is a `StoreMode` parameter.
- The float `average_sections_per_doc` and its rounding.
- Unicode: `str.isspace`, `\w` and `lower()` are modelled on ASCII.
- `created_at` and `content_type` on parsed documents, and projections in listings, beyond the fields used.
- The console helpers `print_section_hierarchy` and `print_results`, `save_to_markdown`, `store_wikipedia_file`, and the `mongo/connect.py` and `main_agent/agent.py` files are not part of this model; they are outside the knowledge path.
- Search.HighlightFirstMatch: proved only for terms whose first character is not `.`, because lower-casing in the model maps nothing else to `.`, and the proof relies on that.
- Agent.SavedPath has no contract: the file's path is not read back.
- Section defaults (`level` 1, counts 0): parsed sections always carry these fields, so only the optional `subsections` and `parent_section` are modelled.

Where the code differs from its description, the code is followed (the one exception, the `sections` search filter, is listed above and under Findings):

- Section keys keep a `_` for leading and trailing white space.
- Summary words are not counted in `total_words`.
- The explicit `##` header branch of the parser can never run, because every line starting with `#` is skipped first.
- A fetch matches titles by case-insensitive substring, so a stored "Paris Hilton" answers a query for "Paris".
- A negative limit is always treated as limiting and drops items from the end.
- A `fetch_document` or `fetch_sections` request with an empty query always ends in the "could not retrieve" error: the lookup ignores an empty query, and an empty query is never stored as a title match.
- A fetch whose query has white space at either end (" Paris") stores the article, but the parser strips the `**Query:**` value, so the stored titles are the stripped query ("Paris"). The lookup by the unstripped query then finds nothing (Retrieval.PaddedQueryMissesStrippedTitle): the agent reports `wikipedia_fetched` together with the "could not retrieve" error, and each retry updates the same record. The model keeps this behaviour.

## Findings

| source | as written | input that shows it | evidently intended | confidence | as-written member | corrected member |
|---|---|---|---|---|---|---|
| mongo/wikipedia.py:623-630 | `$elemMatch` is applied to `sections`, which is stored as a mapping, not an array, so it never matches | a document with one section "History" whose content is "Paris", searched for "Paris" in scope `sections` | return the documents that have a section whose content contains the term | not executed | Search.ElemMatchMissesSections | Search.SectionsScopeFindsSections |
