/**
 * `WikipediaStorageManager.store_wikipedia_document` and
 * `_find_duplicate_documents` (mongo/wikipedia.py): the collection is an
 * in-memory sequence of stored documents in natural order, ids come from a
 * counter, and the answer to the duplicate prompt is a parameter.
 */
module Store {
  import opened Wrappers
  import opened Text
  import opened Documents
  import opened Parser

  /** A document of the collection: the parsed document and the fields the store adds to it. */
  datatype StoredDocument = StoredDocument(
    id: nat,
    doc: Document,
    statistics: Statistics,
    sourceFile: Option<string>,
    createdAt: string,
    updatedAt: Option<string>)

  /** The two fields duplicates are looked up by. */
  datatype Field = QueryField | UrlField

  /** The answer to the duplicate prompt. */
  datatype DuplicateAction = Skip | Add | Update | Overwrite

  /** `interactive=True` with the answer the prompt would get, or `interactive=False`. */
  datatype StoreMode = Interactive(action: DuplicateAction) | NonInteractive

  function FieldName(f: Field): string {
    match f
    case QueryField => "query"
    case UrlField => "url"
  }

  /** The top-level field of a document. */
  function TopLevel(d: Document, f: Field): Option<string> {
    match f
    case QueryField => d.query
    case UrlField => d.url
  }

  /**
   * `document.get(f) or document.get('metadata', {}).get(f)`, kept only when
   * non-empty, as the `if query_value:` test does.
   */
  function LookupValue(d: Document, f: Field): (r: Option<string>)
    ensures r.Some? ==> r.value != []
    ensures r.Some? ==> TopLevel(d, f) == r || (FieldName(f) in d.metadata && d.metadata[FieldName(f)] == r.value)
    ensures r.None? ==> (TopLevel(d, f).None? || TopLevel(d, f).value == [])
    ensures TopLevel(d, f).Some? && TopLevel(d, f).value != [] ==> r == TopLevel(d, f)
    ensures r.None? ==> FieldName(f) !in d.metadata || d.metadata[FieldName(f)] == []
  {
    match TopLevel(d, f)
    case Some(v) =>
      if v != [] then Some(v)
      else if FieldName(f) in d.metadata && d.metadata[FieldName(f)] != [] then Some(d.metadata[FieldName(f)])
      else None
    case None =>
      if FieldName(f) in d.metadata && d.metadata[FieldName(f)] != [] then Some(d.metadata[FieldName(f)])
      else None
  }

  /** `collection.find_one({f: v})`: the index of the first document whose field equals `v`. */
  function FindOne(records: seq<StoredDocument>, f: Field, v: string): (r: Option<nat>)
    ensures r.Some? ==> r.value < |records| && TopLevel(records[r.value].doc, f) == Some(v)
    ensures r.Some? ==> forall j :: 0 <= j < r.value ==> TopLevel(records[j].doc, f) != Some(v)
    ensures r.None? ==> forall j :: 0 <= j < |records| ==> TopLevel(records[j].doc, f) != Some(v)
    decreases |records|
  {
    if records == [] then None
    else if TopLevel(records[0].doc, f) == Some(v) then Some(0)
    else match FindOne(records[1..], f, v)
      case None => None
      case Some(i) => Some(i + 1)
  }

  /** A stored document that shares the new document's query, or else its URL. */
  predicate IsDuplicate(r: StoredDocument, d: Document) {
    (LookupValue(d, QueryField).Some? && TopLevel(r.doc, QueryField) == LookupValue(d, QueryField))
    || (LookupValue(d, UrlField).Some? && TopLevel(r.doc, UrlField) == LookupValue(d, UrlField))
  }

  /**
   * `_find_duplicate_documents`: the first document with the same query;
   * only when there is none, the first with the same URL.
   */
  function FindDuplicates(records: seq<StoredDocument>, d: Document): (r: seq<StoredDocument>)
    ensures |r| <= 1
    ensures forall k :: 0 <= k < |r| ==> r[k] in records && IsDuplicate(r[k], d)
  {
    var byQuery := if LookupValue(d, QueryField).Some? then FindOne(records, QueryField, LookupValue(d, QueryField).value) else None;
    if byQuery.Some? then [records[byQuery.value]]
    else if LookupValue(d, UrlField).None? then []
    else match FindOne(records, UrlField, LookupValue(d, UrlField).value)
      case None => []
      case Some(i) => [records[i]]
  }

  /** No duplicate is reported exactly when no stored document shares the query or the URL. */
  lemma NoDuplicatesIff(records: seq<StoredDocument>, d: Document)
    ensures FindDuplicates(records, d) == [] <==> forall j :: 0 <= j < |records| ==> !IsDuplicate(records[j], d)
  {
    if FindDuplicates(records, d) == [] {
      forall j | 0 <= j < |records| ensures !IsDuplicate(records[j], d) {
      }
    } else {
      assert FindDuplicates(records, d)[0] in records;
    }
  }

  /** A query match wins: the URL is consulted only when no document has the query. */
  lemma QueryDuplicateFirst(records: seq<StoredDocument>, d: Document, j: nat)
    requires j < |records| && LookupValue(d, QueryField).Some?
    requires TopLevel(records[j].doc, QueryField) == LookupValue(d, QueryField)
    ensures |FindDuplicates(records, d)| == 1
    ensures TopLevel(FindDuplicates(records, d)[0].doc, QueryField) == LookupValue(d, QueryField)
  {
  }

  // ---------------------------------------------------------------------------
  // Changes to the collection
  // ---------------------------------------------------------------------------

  predicate UniqueIds(records: seq<StoredDocument>) {
    forall i, j :: 0 <= i < j < |records| ==> records[i].id != records[j].id
  }

  /** Every id is unique and below the next fresh id. */
  predicate ValidCollection(records: seq<StoredDocument>, nextId: nat) {
    UniqueIds(records) && forall i :: 0 <= i < |records| ==> records[i].id < nextId
  }

  /** The document `store_wikipedia_document` writes, with its statistics. */
  function NewRecord(id: nat, d: Document, sourceFile: Option<string>, now: string, updatedAt: Option<string>): (r: StoredDocument)
    ensures r.id == id && r.doc == d && r.statistics == ComputeStatistics(d)
    ensures r.sourceFile.Some? <==> sourceFile.Some? && sourceFile.value != []
  {
    StoredDocument(id, d, ComputeStatistics(d),
      if sourceFile.Some? && sourceFile.value != [] then sourceFile else None,
      now, updatedAt)
  }

  /** `collection.delete_one({'_id': id})` */
  function RemoveId(records: seq<StoredDocument>, id: nat): (r: seq<StoredDocument>)
    ensures |r| <= |records|
    ensures forall k :: 0 <= k < |r| ==> r[k] in records && r[k].id != id
    ensures forall k :: 0 <= k < |records| && records[k].id != id ==> records[k] in r
    decreases |records|
  {
    if records == [] then []
    else if records[0].id == id then RemoveId(records[1..], id)
    else [records[0]] + RemoveId(records[1..], id)
  }

  /** Deleting every document of `existing` in turn. */
  function RemoveIds(records: seq<StoredDocument>, existing: seq<StoredDocument>): (r: seq<StoredDocument>)
    ensures forall k :: 0 <= k < |r| ==> r[k] in records
    decreases |existing|
  {
    if existing == [] then records
    else RemoveId(RemoveIds(records, existing[..|existing| - 1]), existing[|existing| - 1].id)
  }

  /** `collection.replace_one({'_id': id}, document)`: the document keeps its id. */
  function ReplaceById(records: seq<StoredDocument>, id: nat, rec: StoredDocument): (r: seq<StoredDocument>)
    requires rec.id == id
    ensures |r| == |records|
    ensures forall k :: 0 <= k < |r| ==> r[k].id == records[k].id
    ensures forall k :: 0 <= k < |r| ==> r[k] == if records[k].id == id then rec else records[k]
  {
    seq(|records|, k requires 0 <= k < |records| => if records[k].id == id then rec else records[k])
  }

  /** The collection, the next fresh id and the returned id after one call. */
  datatype Outcome = Outcome(records: seq<StoredDocument>, nextId: nat, id: Option<nat>)

  /**
   * What `store_wikipedia_document` does with a parsed document: with a
   * duplicate, skip, overwrite (delete, then insert), or update in place
   * (interactive `update` and the non-interactive default); otherwise, or
   * on `add`, insert under a fresh id.
   */
  function StoreOutcome(records: seq<StoredDocument>, nextId: nat, d: Document, sourceFile: Option<string>, mode: StoreMode, now: string): Outcome {
    var existing := FindDuplicates(records, d);
    var inserted := NewRecord(nextId, d, sourceFile, now, None);
    if existing != [] && (mode.NonInteractive? || mode.action == Update) then
      var id := existing[0].id;
      Outcome(ReplaceById(records, id, NewRecord(id, d, sourceFile, now, Some(now))), nextId, Some(id))
    else if existing != [] && mode.action == Skip then
      Outcome(records, nextId, None)
    else if existing != [] && mode.action == Overwrite then
      Outcome(RemoveIds(records, existing) + [inserted], nextId + 1, Some(nextId))
    else
      Outcome(records + [inserted], nextId + 1, Some(nextId))
  }

  lemma RemoveIdKeepsValid(records: seq<StoredDocument>, nextId: nat, id: nat)
    requires ValidCollection(records, nextId)
    ensures ValidCollection(RemoveId(records, id), nextId)
    decreases |records|
  {
    if records != [] {
      RemoveIdKeepsValid(records[1..], nextId, id);
      if records[0].id != id {
        var rest := RemoveId(records[1..], id);
        forall k | 0 <= k < |rest| ensures rest[k].id != records[0].id {
          var j :| 0 <= j < |records[1..]| && records[1..][j] == rest[k];
          assert records[j + 1] == rest[k];
        }
      }
    }
  }

  lemma RemoveIdsKeepsValid(records: seq<StoredDocument>, nextId: nat, existing: seq<StoredDocument>)
    requires ValidCollection(records, nextId)
    ensures ValidCollection(RemoveIds(records, existing), nextId)
    decreases |existing|
  {
    if existing != [] {
      RemoveIdsKeepsValid(records, nextId, existing[..|existing| - 1]);
      RemoveIdKeepsValid(RemoveIds(records, existing[..|existing| - 1]), nextId, existing[|existing| - 1].id);
    }
  }

  /** Every call keeps the ids unique and below the next fresh id. */
  lemma StoreKeepsValid(records: seq<StoredDocument>, nextId: nat, d: Document, sourceFile: Option<string>, mode: StoreMode, now: string)
    requires ValidCollection(records, nextId)
    ensures var o := StoreOutcome(records, nextId, d, sourceFile, mode, now); ValidCollection(o.records, o.nextId)
  {
    var existing := FindDuplicates(records, d);
    if existing != [] && (mode.NonInteractive? || mode.action == Update) {
    } else if existing != [] && mode.action == Skip {
    } else if existing != [] && mode.action == Overwrite {
      RemoveIdsKeepsValid(records, nextId, existing);
    }
  }

  /**
   * Storing never loses a document it does not mean to: skip and update
   * keep the count and insert adds one (OverwriteRemovesDuplicate states
   * that overwrite removes only the duplicate).
   */
  lemma StoreCounts(records: seq<StoredDocument>, nextId: nat, d: Document, sourceFile: Option<string>, mode: StoreMode, now: string)
    requires ValidCollection(records, nextId)
    ensures var o := StoreOutcome(records, nextId, d, sourceFile, mode, now);
      && (FindDuplicates(records, d) == [] ==> |o.records| == |records| + 1 && o.id == Some(nextId))
      && (FindDuplicates(records, d) != [] && mode == Interactive(Add) ==> |o.records| == |records| + 1 && o.id == Some(nextId))
      && (FindDuplicates(records, d) != [] && mode == Interactive(Skip) ==> o.records == records && o.id.None?)
      && (FindDuplicates(records, d) != [] && (mode.NonInteractive? || mode == Interactive(Update)) ==>
            |o.records| == |records| && o.id == Some(FindDuplicates(records, d)[0].id) && o.nextId == nextId)
  {
  }

  /**
   * After an update (the interactive `update` action or the non-interactive
   * default), the duplicate's id holds the new document, marked as updated,
   * at the duplicate's position; nothing else changed.
   */
  lemma UpdateReplacesDuplicate(records: seq<StoredDocument>, nextId: nat, d: Document, sourceFile: Option<string>,
                                mode: StoreMode, now: string)
    requires FindDuplicates(records, d) != []
    requires mode.NonInteractive? || mode == Interactive(Update)
    ensures var o := StoreOutcome(records, nextId, d, sourceFile, mode, now);
      var id := FindDuplicates(records, d)[0].id;
      && |o.records| == |records|
      && (forall k :: 0 <= k < |records| && records[k].id == id ==>
            o.records[k].id == id && o.records[k].doc == d && o.records[k].updatedAt == Some(now))
      && (forall k :: 0 <= k < |records| && records[k].id != id ==> o.records[k] == records[k])
  {
  }

  /**
   * After an overwrite, no document keeps the duplicate's id, every other
   * document survives, and the new one is last, under a fresh id.
   */
  lemma OverwriteRemovesDuplicate(records: seq<StoredDocument>, nextId: nat, d: Document, sourceFile: Option<string>, now: string)
    requires ValidCollection(records, nextId) && FindDuplicates(records, d) != []
    ensures var o := StoreOutcome(records, nextId, d, sourceFile, Interactive(Overwrite), now);
      var id := FindDuplicates(records, d)[0].id;
      && (forall k :: 0 <= k < |o.records| - 1 ==> o.records[k].id != id)
      && (forall k :: 0 <= k < |records| && records[k].id != id ==> records[k] in o.records)
      && o.records[|o.records| - 1].id == nextId != id
      && o.records[|o.records| - 1].doc == d
  {
    var existing := FindDuplicates(records, d);
    assert existing[..0] == [];
    assert RemoveIds(records, existing) == RemoveId(records, existing[0].id);
    assert existing[0] in records;
  }

  /** Unless skipped, the stored collection holds a record carrying the document. */
  lemma StoredRecordIndex(records: seq<StoredDocument>, nextId: nat, d: Document, sourceFile: Option<string>, mode: StoreMode, now: string)
    returns (k: nat)
    requires mode != Interactive(Skip)
    ensures var o := StoreOutcome(records, nextId, d, sourceFile, mode, now);
      k < |o.records| && o.records[k].doc == d
  {
    var o := StoreOutcome(records, nextId, d, sourceFile, mode, now);
    var existing := FindDuplicates(records, d);
    if existing != [] && (mode.NonInteractive? || mode.action == Update) {
      k :| 0 <= k < |records| && records[k] == existing[0];
      assert o.records[k].doc == d;
    } else {
      k := |o.records| - 1;
      assert o.records[k].doc == d;
    }
  }

  /** Once stored (and not skipped), the document is found as a duplicate of itself. */
  lemma StoredIsFound(records: seq<StoredDocument>, nextId: nat, d: Document, sourceFile: Option<string>, mode: StoreMode, now: string)
    requires mode != Interactive(Skip)
    requires LookupValue(d, QueryField) == d.query
    requires d.query.Some?
    ensures var o := StoreOutcome(records, nextId, d, sourceFile, mode, now);
      FindDuplicates(o.records, d) != []
  {
    var o := StoreOutcome(records, nextId, d, sourceFile, mode, now);
    var k := StoredRecordIndex(records, nextId, d, sourceFile, mode, now);
    assert IsDuplicate(o.records[k], d);
    NoDuplicatesIff(o.records, d);
  }

  /**
   * Storing the same text twice without prompting adds one document, not
   * two: the second call finds the first and updates it.
   */
  lemma StoreTwiceNonInteractive(records: seq<StoredDocument>, nextId: nat, content: string, sourceFile: Option<string>, now1: string, now2: string)
    requires ValidCollection(records, nextId)
    requires LookupValue(Parse(content), QueryField) == Parse(content).query && Parse(content).query.Some?
    ensures var o1 := StoreOutcome(records, nextId, Parse(content), sourceFile, NonInteractive, now1);
      var o2 := StoreOutcome(o1.records, o1.nextId, Parse(content), sourceFile, NonInteractive, now2);
      |o2.records| == |o1.records| && o2.nextId == o1.nextId
  {
    var d := Parse(content);
    var o1 := StoreOutcome(records, nextId, d, sourceFile, NonInteractive, now1);
    StoredIsFound(records, nextId, d, sourceFile, NonInteractive, now1);
    StoreKeepsValid(records, nextId, d, sourceFile, NonInteractive, now1);
    StoreCounts(o1.records, o1.nextId, d, sourceFile, NonInteractive, now2);
  }

  // ---------------------------------------------------------------------------
  // The collection object
  // ---------------------------------------------------------------------------

  /** The MongoDB collection of stored articles, in natural order. */
  class WikipediaStore {
    var records: seq<StoredDocument>
    var nextId: nat

    predicate Valid()
      reads this
    {
      ValidCollection(records, nextId)
    }

    constructor()
      ensures records == [] && nextId == 0 && Valid()
    {
      records := [];
      nextId := 0;
    }

    /** `collection.delete_one` for each duplicate, in order. */
    method DeleteAll(existing: seq<StoredDocument>)
      requires Valid()
      modifies this
      ensures records == RemoveIds(old(records), existing) && nextId == old(nextId) && Valid()
    {
      var k := 0;
      while k < |existing|
        invariant 0 <= k <= |existing|
        invariant records == RemoveIds(old(records), existing[..k]) && nextId == old(nextId)
        invariant Valid()
      {
        assert existing[..k + 1][..k] == existing[..k];
        RemoveIdKeepsValid(records, nextId, existing[k].id);
        records := RemoveId(records, existing[k].id);
        k := k + 1;
      }
      assert existing[..k] == existing;
    }

    /**
     * `store_wikipedia_document(content, source_file, interactive)`: parse,
     * look for a duplicate, then skip, update, overwrite or insert.
     */
    method StoreWikipediaDocument(content: string, sourceFile: Option<string>, mode: StoreMode, now: string) returns (id: Option<nat>)
      requires Valid()
      modifies this
      ensures var o := StoreOutcome(old(records), old(nextId), Parse(content), sourceFile, mode, now);
        records == o.records && nextId == o.nextId && id == o.id
      ensures Valid()
    {
      StoreKeepsValid(records, nextId, Parse(content), sourceFile, mode, now);
      var document := ParseMarkdownContent(content);
      var existing := FindDuplicates(records, document);
      if existing != [] && mode.Interactive? {
        match mode.action
        case Skip =>
          return None;
        case Overwrite =>
          DeleteAll(existing);
        case Update =>
          var existingId := existing[0].id;
          records := ReplaceById(records, existingId, NewRecord(existingId, document, sourceFile, now, Some(now)));
          return Some(existingId);
        case Add =>
      } else if existing != [] {
        var existingId := existing[0].id;
        records := ReplaceById(records, existingId, NewRecord(existingId, document, sourceFile, now, Some(now)));
        return Some(existingId);
      }
      id := Some(nextId);
      records := records + [NewRecord(nextId, document, sourceFile, now, None)];
      nextId := nextId + 1;
    }
  }
}
