/**
 * `WikipediaStorageManager.search_content` and `_highlight_text`
 * (mongo/wikipedia.py): choosing documents by scope, listing the summary and
 * section matches of each, and showing each match as an excerpt with the
 * term wrapped in `**`.
 */
module Search {
  import opened Wrappers
  import opened Text
  import opened Documents
  import opened Store
  import opened Retrieval

  // ---------------------------------------------------------------------------
  // re.sub(f'({re.escape(term)})', r'**\1**', s, flags=re.IGNORECASE)
  // ---------------------------------------------------------------------------

  /** A piece of a scanned string: a character left alone, or an occurrence of the term. */
  datatype Piece = Text(c: char) | Hit(m: string)

  /**
   * The left-to-right scan of `re.sub` over `s`, whose lower-cased form is
   * `ls`, for the lower-cased term `lt`: an occurrence is taken whole and
   * the scan resumes after it; otherwise one character is kept.
   */
  function Scan(s: string, ls: string, lt: string): seq<Piece>
    requires |ls| == |s| && lt != []
    decreases |s|
  {
    if s == [] then []
    else if |lt| <= |s| && ls[..|lt|] == lt then [Hit(s[..|lt|])] + Scan(s[|lt|..], ls[|lt|..], lt)
    else [Text(s[0])] + Scan(s[1..], ls[1..], lt)
  }

  /** The scan of `s` for `term`, ignoring case. */
  function Segment(s: string, term: string): seq<Piece>
    requires term != []
  {
    Scan(s, Lower(s), Lower(term))
  }

  /** Every character kept as it is. */
  function Texts(w: string): (ps: seq<Piece>)
    ensures |ps| == |w| && forall k :: 0 <= k < |w| ==> ps[k] == Text(w[k])
  {
    seq(|w|, k requires 0 <= k < |w| => Text(w[k]))
  }

  /** The replacement text: each occurrence becomes `**occurrence**`, in its original case. */
  function Render(ps: seq<Piece>): string {
    if ps == [] then []
    else (match ps[0] case Text(c) => [c] case Hit(m) => "**" + m + "**") + Render(ps[1..])
  }

  /** The scanned text itself, markers left out. */
  function Original(ps: seq<Piece>): string {
    if ps == [] then []
    else (match ps[0] case Text(c) => [c] case Hit(m) => m) + Original(ps[1..])
  }

  /** `re.sub(f'({re.escape(term)})', r'**\1**', s, flags=re.IGNORECASE)` */
  function WrapMatches(s: string, term: string): string
    requires term != []
  {
    Render(Segment(s, term))
  }

  lemma LowerSuffix(s: string, k: nat)
    requires k <= |s|
    ensures Lower(s)[k..] == Lower(s[k..])
  {
  }

  lemma LowerSlice(s: string, i: nat, j: nat)
    requires i <= j <= |s|
    ensures Lower(s)[i..j] == Lower(s[i..j])
  {
  }

  lemma {:induction false} RenderAppend(a: seq<Piece>, b: seq<Piece>)
    ensures Render(a + b) == Render(a) + Render(b)
    decreases |a|
  {
    if a == [] {
      assert a + b == b;
    } else {
      assert (a + b)[0] == a[0];
      assert (a + b)[1..] == a[1..] + b;
      RenderAppend(a[1..], b);
    }
  }

  lemma {:induction false} RenderTexts(w: string)
    ensures Render(Texts(w)) == w
    decreases |w|
  {
    if w != [] {
      assert Texts(w)[1..] == Texts(w[1..]);
      RenderTexts(w[1..]);
    }
  }

  lemma {:induction false} ScanKeepsText(s: string, ls: string, lt: string)
    requires |ls| == |s| && lt != []
    ensures Original(Scan(s, ls, lt)) == s
    decreases |s|
  {
    if s != [] {
      var ps := Scan(s, ls, lt);
      if |lt| <= |s| && ls[..|lt|] == lt {
        assert ps[1..] == Scan(s[|lt|..], ls[|lt|..], lt);
        ScanKeepsText(s[|lt|..], ls[|lt|..], lt);
        assert s == s[..|lt|] + s[|lt|..];
      } else {
        assert ps[1..] == Scan(s[1..], ls[1..], lt);
        ScanKeepsText(s[1..], ls[1..], lt);
        assert s == [s[0]] + s[1..];
      }
    }
  }

  /** The scan keeps every character: without the markers, the result is the input. */
  lemma SegmentKeepsText(s: string, term: string)
    requires term != []
    ensures Original(Segment(s, term)) == s
  {
    ScanKeepsText(s, Lower(s), Lower(term));
  }

  lemma {:induction false} ScanWithoutMatch(s: string, ls: string, lt: string)
    requires |ls| == |s| && lt != []
    requires forall j: nat :: !MatchAt(ls, lt, j)
    ensures Scan(s, ls, lt) == Texts(s)
    decreases |s|
  {
    if s != [] {
      ScanMiss(s, ls, lt);
      forall j: nat ensures !MatchAt(ls[1..], lt, j) {
        MatchShift(ls, lt, j);
      }
      ScanWithoutMatch(s[1..], ls[1..], lt);
      assert Texts(s) == [Text(s[0])] + Texts(s[1..]);
    }
  }

  /** Where the term does not occur, nothing is wrapped. */
  lemma WrapWithoutMatch(s: string, term: string)
    requires term != [] && !ContainsIgnoreCase(s, term)
    ensures WrapMatches(s, term) == s
  {
    ScanWithoutMatch(s, Lower(s), Lower(term));
    RenderTexts(s);
  }

  lemma ScanMiss(s: string, ls: string, lt: string)
    requires |ls| == |s| && lt != [] && s != [] && !MatchAt(ls, lt, 0)
    ensures Scan(s, ls, lt) == [Text(s[0])] + Scan(s[1..], ls[1..], lt)
  {
    assert |lt| <= |s| ==> ls[..|lt|] == ls[0..0 + |lt|];
  }

  lemma ScanHit(s: string, ls: string, lt: string)
    requires |ls| == |s| && lt != [] && MatchAt(ls, lt, 0)
    ensures Scan(s, ls, lt) == [Hit(s[..|lt|])] + Scan(s[|lt|..], ls[|lt|..], lt)
  {
    assert ls[..|lt|] == ls[0..0 + |lt|];
  }

  lemma MatchShift(ls: string, lt: string, j: nat)
    requires ls != []
    ensures MatchAt(ls[1..], lt, j) <==> MatchAt(ls, lt, j + 1)
  {
    if j + |lt| <= |ls[1..]| {
      assert ls[1..][j..j + |lt|] == ls[j + 1..j + 1 + |lt|];
    }
  }

  lemma TextsCons(s: string, p: nat)
    requires 0 < p <= |s|
    ensures Texts(s[..p]) == [Text(s[0])] + Texts(s[1..][..p - 1])
  {
  }

  lemma ConsAssoc(x: Piece, a: seq<Piece>, b: seq<Piece>, c: seq<Piece>)
    ensures [x] + (a + b + c) == ([x] + a) + b + c
  {
  }

  lemma {:induction false} ScanFirst(s: string, ls: string, lt: string, p: nat)
    requires |ls| == |s| && lt != []
    requires MatchAt(ls, lt, p)
    requires forall j: nat :: j < p ==> !MatchAt(ls, lt, j)
    ensures Scan(s, ls, lt) == Texts(s[..p]) + [Hit(s[p..p + |lt|])] + Scan(s[p + |lt|..], ls[p + |lt|..], lt)
    decreases p
  {
    if p == 0 {
      ScanHit(s, ls, lt);
      assert Texts(s[..0]) == [];
      assert s[..|lt|] == s[0..0 + |lt|];
    } else {
      ScanMiss(s, ls, lt);
      var t, lu := s[1..], ls[1..];
      MatchShift(ls, lt, p - 1);
      forall j: nat | j < p - 1 ensures !MatchAt(lu, lt, j) {
        MatchShift(ls, lt, j);
      }
      ScanFirst(t, lu, lt, p - 1);
      assert t[p - 1 + |lt|..] == s[p + |lt|..];
      assert lu[p - 1 + |lt|..] == ls[p + |lt|..];
      assert t[p - 1..p - 1 + |lt|] == s[p..p + |lt|];
      TextsCons(s, p);
      ConsAssoc(Text(s[0]), Texts(t[..p - 1]), [Hit(s[p..p + |lt|])], Scan(s[p + |lt|..], ls[p + |lt|..], lt));
    }
  }

  lemma RenderHit(m: string)
    ensures Render([Hit(m)]) == "**" + m + "**"
  {
    assert [Hit(m)][1..] == [];
  }

  lemma ConcatAssoc(a: string, b: string, c: string, d: string, w: string)
    requires b == d
    ensures a + (b + c + d) + w == a + b + c + d + w
  {
  }

  /** The wrapping of a string whose first occurrence of the term, ignoring case, is at `p`. */
  lemma WrapFirstHit(e: string, term: string, p: nat)
    requires term != [] && MatchAt(Lower(e), Lower(term), p)
    requires forall j: nat :: j < p ==> !MatchAt(Lower(e), Lower(term), j)
    ensures p + |term| <= |e|
    ensures WrapMatches(e, term) == e[..p] + "**" + e[p..p + |term|] + "**" + WrapMatches(e[p + |term|..], term)
  {
    ScanFirst(e, Lower(e), Lower(term), p);
    LowerSuffix(e, p + |term|);
    var m := e[p..p + |term|];
    var texts := Texts(e[..p]);
    var hit := [Hit(m)];
    var rest := Segment(e[p + |term|..], term);
    assert Segment(e, term) == texts + hit + rest;
    RenderAppend(texts + hit, rest);
    RenderAppend(texts, hit);
    RenderTexts(e[..p]);
    RenderHit(m);
    var star := "**";
    assert WrapMatches(e, term) == e[..p] + (star + m + star) + WrapMatches(e[p + |term|..], term);
    ConcatAssoc(e[..p], star, m, star, WrapMatches(e[p + |term|..], term));
  }

  /**
   * The first occurrence, ignoring case, is wrapped in `**` in its
   * original case, everything before it is kept as it is, and the scan
   * resumes right after it.
   */
  lemma WrapFirstMatch(s: string, term: string, i: nat)
    requires term != [] && FindIgnoreCase(s, term) == Some(i)
    ensures i + |term| <= |s|
    ensures WrapMatches(s, term) == s[..i] + "**" + s[i..i + |term|] + "**" + WrapMatches(s[i + |term|..], term)
  {
    WrapFirstHit(s, term, i);
  }

  // ---------------------------------------------------------------------------
  // _highlight_text
  // ---------------------------------------------------------------------------

  /** `context_chars`: the excerpt keeps up to half of it on each side of the match. */
  const ContextChars: nat := 150

  /** `start = max(0, match.start() - 75)`, `end = min(len(text), match.end() + 75)` */
  function ContextWindow(n: nat, i: nat, len: nat): (w: (nat, nat))
    requires i + len <= n
    ensures w.0 <= i && i + len <= w.1 <= n
    ensures i - w.0 == if i < ContextChars / 2 then i else ContextChars / 2
    ensures w.1 - (i + len) == if n - (i + len) < ContextChars / 2 then n - (i + len) else ContextChars / 2
  {
    (if i >= ContextChars / 2 then i - ContextChars / 2 else 0,
     if i + len + ContextChars / 2 <= n then i + len + ContextChars / 2 else n)
  }

  /** The excerpt around a match, with `...` where the text was cut. */
  function Excerpt(text: string, i: nat, len: nat): string
    requires i + len <= |text|
  {
    var (start, end) := ContextWindow(|text|, i, len);
    (if start > 0 then "..." else "") + text[start..end] + (if end < |text| then "..." else "")
  }

  /**
   * `_highlight_text(text, search_term)`: an empty text or term is returned
   * as it is; without a match, the first 150 characters; with one, the
   * excerpt around the first match with every occurrence in it wrapped.
   */
  function HighlightText(text: string, term: string): (r: string)
    ensures text == [] || term == [] ==> r == text
    ensures text != [] && term != [] && !ContainsIgnoreCase(text, term) && |text| <= ContextChars ==> r == text
    ensures text != [] && term != [] && !ContainsIgnoreCase(text, term) && |text| > ContextChars ==>
      |r| == ContextChars + 3 && r[..ContextChars] == text[..ContextChars] && r[ContextChars..] == "..."
  {
    if text == [] || term == [] then text
    else match FindIgnoreCase(text, term)
      case None => if |text| > ContextChars then text[..ContextChars] + "..." else text
      case Some(i) => WrapMatches(Excerpt(text, i, |term|), term)
  }

  lemma DotOnlyFromDot(c: char)
    requires LowerChar(c) == '.'
    ensures c == '.'
  {
  }

  /** Slices of `a + b + c` that fall in `b`, or run from the end of a slice of `b` to the end. */
  lemma SliceParts(a: string, b: string, c: string, k: nat, len: nat)
    requires k + len <= |b|
    ensures (a + b + c)[..|a| + k] == a + b[..k]
    ensures (a + b + c)[|a| + k..|a| + k + len] == b[k..k + len]
    ensures (a + b + c)[|a| + k + len..] == b[k + len..] + c
  {
  }

  lemma SliceOfSlice(text: string, start: nat, end: nat, k: nat, n: nat)
    requires start <= end <= |text| && k + n <= end - start
    ensures text[start..end][k..k + n] == text[start + k..start + k + n]
  {
    var a := text[start..end][k..k + n];
    var b := text[start + k..start + k + n];
    forall m | 0 <= m < n ensures a[m] == b[m] {
      assert a[m] == text[start..end][k + m];
    }
  }

  /** A match of the lower-cased term inside the `...` prefix would start with a dot. */
  lemma NoMatchInEllipsis(e: string, term: string, pl: string, j: nat)
    requires term != [] && term[0] != '.'
    requires |pl| <= |e| && forall k :: 0 <= k < |pl| ==> e[k] == '.'
    requires j < |pl|
    ensures !MatchAt(Lower(e), Lower(term), j)
  {
    assert Lower(e)[j] == '.';
    assert Lower(term)[0] != '.' by {
      if LowerChar(term[0]) == '.' {
        DotOnlyFromDot(term[0]);
      }
    }
    if j + |term| <= |e| {
      assert Lower(e)[j..j + |term|][0] == Lower(e)[j];
    }
  }

  /** A match carries over between equal stretches of two strings. */
  lemma MatchTransfer(a: string, i: nat, b: string, j: nat, term: string)
    requires i + |term| <= |a| && j + |term| <= |b| && a[i..i + |term|] == b[j..j + |term|]
    requires MatchAt(Lower(a), Lower(term), i)
    ensures MatchAt(Lower(b), Lower(term), j)
  {
    LowerSlice(a, i, i + |term|);
    LowerSlice(b, j, j + |term|);
  }

  /** The three parts of an excerpt around position `i` of the text. */
  lemma ExcerptSlices(text: string, pl: string, sl: string, start: nat, end: nat, i: nat, n: nat)
    requires start <= i && i + n <= end <= |text|
    ensures var e := pl + text[start..end] + sl;
      && e[..|pl| + (i - start)] == pl + text[start..i]
      && e[|pl| + (i - start)..|pl| + (i - start) + n] == text[i..i + n]
      && e[|pl| + (i - start) + n..] == text[i + n..end] + sl
  {
    var mid := text[start..end];
    var k := i - start;
    SliceParts(pl, mid, sl, k, n);
    SliceOfSlice(text, start, end, 0, k);
    SliceOfSlice(text, start, end, k, n);
    assert mid[..k] == mid[0..k];
    assert mid[k + n..] == text[i + n..end];
  }

  /** A match inside the text part of the excerpt is a match of the text. */
  lemma MatchInMiddle(text: string, term: string, pl: string, sl: string, start: nat, end: nat, k: nat)
    requires start <= end <= |text| && k + |term| <= end - start
    requires MatchAt(Lower(pl + text[start..end] + sl), Lower(term), |pl| + k)
    ensures MatchAt(Lower(text), Lower(term), start + k)
  {
    var e := pl + text[start..end] + sl;
    SliceParts(pl, text[start..end], sl, k, |term|);
    SliceOfSlice(text, start, end, k, |term|);
    MatchTransfer(e, |pl| + k, text, start + k, term);
  }

  /** No occurrence starts in the excerpt before the first match of the text, unless the term starts with a dot. */
  lemma ExcerptNoEarlierHit(text: string, term: string, i: nat, pl: string, sl: string, start: nat, end: nat, j: nat)
    requires term != [] && term[0] != '.' && FindIgnoreCase(text, term) == Some(i)
    requires start <= i && i + |term| <= end <= |text|
    requires forall k :: 0 <= k < |pl| ==> pl[k] == '.'
    requires j < |pl| + (i - start)
    ensures !MatchAt(Lower(pl + text[start..end] + sl), Lower(term), j)
  {
    var e := pl + text[start..end] + sl;
    if j < |pl| {
      NoMatchInEllipsis(e, term, pl, j);
    } else if MatchAt(Lower(e), Lower(term), j) {
      MatchInMiddle(text, term, pl, sl, start, end, j - |pl|);
    }
  }

  /** The first match of the excerpt `pl + text[start..end] + sl` is the text's first match. */
  lemma ExcerptFirstHit(text: string, term: string, i: nat, pl: string, sl: string, start: nat, end: nat)
    requires term != [] && term[0] != '.' && FindIgnoreCase(text, term) == Some(i)
    requires start <= i && i + |term| <= end <= |text|
    requires forall k :: 0 <= k < |pl| ==> pl[k] == '.'
    ensures FindIgnoreCase(pl + text[start..end] + sl, term) == Some(|pl| + (i - start))
  {
    var e := pl + text[start..end] + sl;
    var p := |pl| + (i - start);
    ExcerptSlices(text, pl, sl, start, end, i, |term|);
    forall j: nat | j < p ensures !MatchAt(Lower(e), Lower(term), j) {
      ExcerptNoEarlierHit(text, term, i, pl, sl, start, end, j);
    }
    MatchTransfer(text, i, e, p, term);
    FirstMatchIsIndex(Lower(e), Lower(term), p);
  }

  /** WrapFirstMatch with the three parts of the string named. */
  lemma WrapAtParts(e: string, term: string, p: nat, before: string, m: string, after: string)
    requires term != [] && FindIgnoreCase(e, term) == Some(p)
    requires p + |term| <= |e| && before == e[..p] && m == e[p..p + |term|] && after == e[p + |term|..]
    ensures WrapMatches(e, term) == before + "**" + m + "**" + WrapMatches(after, term)
  {
    WrapFirstMatch(e, term, p);
  }

  /** Wrapping an excerpt `pl + text[start..end] + sl` whose first match is at position `i` of the text. */
  lemma ExcerptWrap(text: string, term: string, i: nat, pl: string, sl: string, start: nat, end: nat)
    requires term != [] && start <= i && i + |term| <= end <= |text|
    requires FindIgnoreCase(pl + text[start..end] + sl, term) == Some(|pl| + (i - start))
    ensures WrapMatches(pl + text[start..end] + sl, term)
      == pl + text[start..i] + "**" + text[i..i + |term|] + "**" + WrapMatches(text[i + |term|..end] + sl, term)
  {
    var e := pl + text[start..end] + sl;
    var p := |pl| + (i - start);
    ExcerptSlices(text, pl, sl, start, end, i, |term|);
    WrapAtParts(e, term, p, pl + text[start..i], text[i..i + |term|], text[i + |term|..end] + sl);
  }

  /**
   * For a term that does not start with a dot: the result shows the text
   * from up to 75 characters before the first match (after `...` when cut),
   * the match wrapped in `**` in its original case, and then the rest of
   * the excerpt with its own occurrences wrapped.
   */
  lemma HighlightFirstMatch(text: string, term: string, i: nat)
    requires term != [] && term[0] != '.' && FindIgnoreCase(text, term) == Some(i)
    ensures i + |term| <= |text|
    ensures var (start, end) := ContextWindow(|text|, i, |term|);
      HighlightText(text, term) ==
        (if start > 0 then "..." else "") + text[start..i] + "**" + text[i..i + |term|] + "**"
        + WrapMatches(text[i + |term|..end] + (if end < |text| then "..." else ""), term)
  {
    var (start, end) := ContextWindow(|text|, i, |term|);
    var pl: string := if start > 0 then "..." else "";
    var sl: string := if end < |text| then "..." else "";
    assert HighlightText(text, term) == WrapMatches(pl + text[start..end] + sl, term);
    ExcerptFirstHit(text, term, i, pl, sl, start, end);
    ExcerptWrap(text, term, i, pl, sl, start, end);
  }

  // ---------------------------------------------------------------------------
  // search_content
  // ---------------------------------------------------------------------------

  /** Some section's content contains the term, ignoring case. */
  predicate SectionContains(d: Document, term: string) {
    exists k :: 0 <= k < |d.sections| && ContainsIgnoreCase(d.sections[k].section.content, term)
  }

  /**
   * The MongoDB filter of each scope as written. `sections` is stored as a
   * sub-document keyed by section key, not as an array, and `$elemMatch`
   * only matches array elements: the `sections` clause never matches.
   */
  predicate SearchFilterAsWritten(r: StoredDocument, term: string, scope: string) {
    if scope == "titles" then TitleMatches(r, term)
    else if scope == "summaries" then ContainsIgnoreCase(r.doc.summary, term)
    else if scope == "sections" then false
    else (r.doc.query.Some? && ContainsIgnoreCase(r.doc.query.value, term)) || ContainsIgnoreCase(r.doc.summary, term)
  }

  /** The filter as intended: the `sections` clause matches a document with a section containing the term. */
  predicate SearchFilter(r: StoredDocument, term: string, scope: string) {
    if scope == "titles" then TitleMatches(r, term)
    else if scope == "summaries" then ContainsIgnoreCase(r.doc.summary, term)
    else if scope == "sections" then SectionContains(r.doc, term)
    else
      || (r.doc.query.Some? && ContainsIgnoreCase(r.doc.query.value, term))
      || ContainsIgnoreCase(r.doc.summary, term)
      || SectionContains(r.doc, term)
  }

  /** As written, the `sections` scope finds a document whose section holds the term no more than one whose does not. */
  lemma ElemMatchMissesSections()
    ensures var sec := Section("History", "Paris", 2, 1, 5, None, None);
      var d := EmptyDocument.(sections := [SectionEntry("history", sec)]);
      var r := StoredDocument(0, d, ComputeStatistics(d), None, "", None);
      !SearchFilterAsWritten(r, "Paris", "sections") && SearchFilter(r, "Paris", "sections")
  {
    var sec := Section("History", "Paris", 2, 1, 5, None, None);
    var d := EmptyDocument.(sections := [SectionEntry("history", sec)]);
    ContainsItself("Paris");
    assert d.sections[0].section.content == "Paris";
  }

  /** One match of a document: its summary, or one of its sections by title. */
  datatype Match = SummaryMatch(content: string) | SectionMatch(sectionTitle: string, content: string)

  datatype SearchResult = SearchResult(id: nat, title: string, url: string, matches: seq<Match>)

  /** A match for each section whose content contains the term, in section order. */
  function SectionMatches(sections: seq<SectionEntry>, term: string): (ms: seq<Match>)
    ensures |ms| <= |sections|
    ensures forall k :: 0 <= k < |ms| ==> ms[k].SectionMatch?
    ensures ms == [] <==> forall k :: 0 <= k < |sections| ==> !ContainsIgnoreCase(sections[k].section.content, term)
    decreases |sections|
  {
    if sections == [] then []
    else
      var rest := SectionMatches(sections[1..], term);
      assert forall k :: 1 <= k < |sections| ==> sections[k] == sections[1..][k - 1];
      var s := sections[0].section;
      if ContainsIgnoreCase(s.content, term) then [SectionMatch(s.title, HighlightText(s.content, term))] + rest
      else rest
  }

  /** The match one section contributes: its title and highlighted content when the content holds the term. */
  lemma SectionMatchesOne(e: SectionEntry, term: string)
    ensures SectionMatches([e], term) ==
      if ContainsIgnoreCase(e.section.content, term)
      then [SectionMatch(e.section.title, HighlightText(e.section.content, term))]
      else []
  {
    assert [e][1..] == [];
  }

  /** Matches are collected section by section, in the order of the sections mapping. */
  lemma {:induction false} SectionMatchesAppend(a: seq<SectionEntry>, b: seq<SectionEntry>, term: string)
    ensures SectionMatches(a + b, term) == SectionMatches(a, term) + SectionMatches(b, term)
    decreases |a|
  {
    if a == [] {
      assert a + b == b;
    } else {
      assert (a + b)[0] == a[0];
      assert (a + b)[1..] == a[1..] + b;
      SectionMatchesAppend(a[1..], b, term);
    }
  }

  /** Some match is a section match. */
  predicate HasSectionMatch(ms: seq<Match>) {
    exists k :: 0 <= k < |ms| && ms[k].SectionMatch?
  }

  /** The matches of one document: the summary match first, then the section matches. */
  function MatchesOf(d: Document, term: string): (ms: seq<Match>)
    ensures ContainsIgnoreCase(d.summary, term) ==>
      ms == [SummaryMatch(HighlightText(d.summary, term))] + SectionMatches(d.sections, term)
    ensures !ContainsIgnoreCase(d.summary, term) ==> ms == SectionMatches(d.sections, term)
  {
    (if ContainsIgnoreCase(d.summary, term) then [SummaryMatch(HighlightText(d.summary, term))] else [])
    + SectionMatches(d.sections, term)
  }

  /** The result entry of one document. */
  function ResultFor(r: StoredDocument, term: string): (res: SearchResult)
    ensures res.id == r.id && res.matches == MatchesOf(r.doc, term)
    ensures r.doc.query.Some? ==> res.title == r.doc.query.value
    ensures r.doc.query.None? ==> res.title == "Unknown"
    ensures res.url == if "url" in r.doc.metadata then r.doc.metadata["url"] else ""
  {
    SearchResult(
      r.id,
      if r.doc.query.Some? then r.doc.query.value else "Unknown",
      if "url" in r.doc.metadata then r.doc.metadata["url"] else "",
      MatchesOf(r.doc, term))
  }

  /**
   * A document's matches start with its summary exactly when the summary
   * holds the term, and include a section match exactly when a section does.
   */
  lemma MatchKinds(d: Document, term: string)
    ensures ContainsIgnoreCase(d.summary, term) <==> (MatchesOf(d, term) != [] && MatchesOf(d, term)[0].SummaryMatch?)
    ensures SectionContains(d, term) <==> HasSectionMatch(MatchesOf(d, term))
  {
    var summary: seq<Match> := if ContainsIgnoreCase(d.summary, term) then [SummaryMatch(HighlightText(d.summary, term))] else [];
    var sections := SectionMatches(d.sections, term);
    var ms := MatchesOf(d, term);
    assert ms == summary + sections;
    assert forall k :: 0 <= k < |sections| ==> ms[|summary| + k] == sections[k];
    if SectionContains(d, term) {
      assert ms[|summary|].SectionMatch?;
    }
    if HasSectionMatch(ms) {
      var k :| 0 <= k < |ms| && ms[k].SectionMatch?;
      assert k >= |summary|;
      assert sections != [];
    }
  }

  /**
   * `search_content(search_term, search_in)`, with the intended `sections`
   * filter: one result per chosen document, in collection order.
   */
  function SearchContent(records: seq<StoredDocument>, term: string, scope: string): (rs: seq<SearchResult>)
    ensures |rs| <= |records|
    decreases |records|
  {
    if records == [] then []
    else
      var rest := SearchContent(records[1..], term, scope);
      if SearchFilter(records[0], term, scope) then [ResultFor(records[0], term)] + rest else rest
  }

  /** One record gives one result, built by ResultFor, exactly when the filter accepts it. */
  lemma SearchContentOne(r: StoredDocument, term: string, scope: string)
    ensures SearchContent([r], term, scope) == if SearchFilter(r, term, scope) then [ResultFor(r, term)] else []
  {
    assert [r][1..] == [];
  }

  /** Results follow collection order: the search distributes over concatenation. */
  lemma {:induction false} SearchContentAppend(a: seq<StoredDocument>, b: seq<StoredDocument>, term: string, scope: string)
    ensures SearchContent(a + b, term, scope) == SearchContent(a, term, scope) + SearchContent(b, term, scope)
    decreases |a|
  {
    if a == [] {
      assert a + b == b;
    } else {
      assert (a + b)[0] == a[0];
      assert (a + b)[1..] == a[1..] + b;
      SearchContentAppend(a[1..], b, term, scope);
    }
  }

  /** `r` is the result of some record of `records` that the filter accepts. */
  predicate ChosenFrom(records: seq<StoredDocument>, term: string, scope: string, r: SearchResult) {
    exists j :: 0 <= j < |records| && SearchFilter(records[j], term, scope) && r == ResultFor(records[j], term)
  }

  lemma ChosenFromTail(records: seq<StoredDocument>, term: string, scope: string, r: SearchResult)
    requires records != [] && ChosenFrom(records[1..], term, scope, r)
    ensures ChosenFrom(records, term, scope, r)
  {
    var j :| 0 <= j < |records[1..]| && SearchFilter(records[1..][j], term, scope) && r == ResultFor(records[1..][j], term);
    assert records[1..][j] == records[j + 1];
  }

  /** The result at position `k` comes from a record that the filter accepts. */
  lemma {:induction false} ChosenAt(records: seq<StoredDocument>, term: string, scope: string, k: nat)
    requires k < |SearchContent(records, term, scope)|
    ensures ChosenFrom(records, term, scope, SearchContent(records, term, scope)[k])
    decreases |records|
  {
    var rest := SearchContent(records[1..], term, scope);
    if !SearchFilter(records[0], term, scope) {
      ChosenAt(records[1..], term, scope, k);
      ChosenFromTail(records, term, scope, rest[k]);
    } else if k > 0 {
      ChosenAt(records[1..], term, scope, k - 1);
      ChosenFromTail(records, term, scope, rest[k - 1]);
    }
  }

  /** Every result comes from a record that the filter accepts. */
  lemma SearchContentChosen(records: seq<StoredDocument>, term: string, scope: string)
    ensures forall k :: 0 <= k < |SearchContent(records, term, scope)| ==> ChosenFrom(records, term, scope, SearchContent(records, term, scope)[k])
  {
    forall k | 0 <= k < |SearchContent(records, term, scope)|
      ensures ChosenFrom(records, term, scope, SearchContent(records, term, scope)[k])
    {
      ChosenAt(records, term, scope, k);
    }
  }

  /** Every record that the filter accepts yields a result. */
  lemma {:induction false} SearchContentComplete(records: seq<StoredDocument>, term: string, scope: string)
    ensures forall j :: 0 <= j < |records| && SearchFilter(records[j], term, scope) ==> ResultFor(records[j], term) in SearchContent(records, term, scope)
    decreases |records|
  {
    if records != [] {
      var tail := records[1..];
      var rest := SearchContent(tail, term, scope);
      SearchContentComplete(tail, term, scope);
      assert forall r :: r in rest ==> r in SearchContent(records, term, scope);
      forall j | 0 < j < |records| && SearchFilter(records[j], term, scope)
        ensures ResultFor(records[j], term) in rest
      {
        assert records[j] == tail[j - 1];
      }
    }
  }

  /** The `sections` scope returns exactly the documents with a section match, each listing one. */
  lemma SectionsScopeFindsSections(records: seq<StoredDocument>, term: string, scope: string)
    requires scope == "sections"
    ensures forall k :: 0 <= k < |SearchContent(records, term, scope)| ==> HasSectionMatch(SearchContent(records, term, scope)[k].matches)
    ensures forall j :: 0 <= j < |records| && SectionContains(records[j].doc, term) ==>
      ResultFor(records[j], term) in SearchContent(records, term, scope)
  {
    var rs := SearchContent(records, term, scope);
    SearchContentChosen(records, term, scope);
    SearchContentComplete(records, term, scope);
    forall r: StoredDocument | SearchFilter(r, term, scope)
      ensures HasSectionMatch(ResultFor(r, term).matches)
    {
      MatchKinds(r.doc, term);
    }
    forall j | 0 <= j < |records| && SectionContains(records[j].doc, term)
      ensures ResultFor(records[j], term) in rs
    {
      assert SearchFilter(records[j], term, scope);
    }
  }


  /** The `summaries` scope returns only documents whose first match is their highlighted summary. */
  lemma SummariesScopeLeadsWithSummary(records: seq<StoredDocument>, term: string, scope: string)
    requires scope == "summaries"
    ensures forall k :: 0 <= k < |SearchContent(records, term, scope)| ==>
      SearchContent(records, term, scope)[k].matches != [] && SearchContent(records, term, scope)[k].matches[0].SummaryMatch?
  {
    var rs := SearchContent(records, term, scope);
    SearchContentChosen(records, term, scope);
    forall k | 0 <= k < |rs|
      ensures rs[k].matches != [] && rs[k].matches[0].SummaryMatch?
    {
      assert ChosenFrom(records, term, scope, rs[k]);
      var j :| 0 <= j < |records| && SearchFilter(records[j], term, scope) && rs[k] == ResultFor(records[j], term);
      MatchKinds(records[j].doc, term);
    }
  }
}
