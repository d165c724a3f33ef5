/**
 * The section-key normaliser of mongo/wikipedia.py: a section title becomes
 * the key under which the section is stored in a document's `sections`.
 */
module SectionKeys {
  import opened Text

  /** `re.sub(r'[^\w\s]', '', s)`: keep only word characters and whitespace. */
  function KeepWordAndSpace(s: string): (r: string)
    ensures |r| <= |s|
    ensures forall k :: 0 <= k < |r| ==> (IsWordChar(r[k]) || IsSpace(r[k])) && r[k] in s
    ensures (forall k :: 0 <= k < |s| ==> IsWordChar(s[k]) || IsSpace(s[k])) ==> r == s
  {
    if s == [] then []
    else (if IsWordChar(s[0]) || IsSpace(s[0]) then [s[0]] else []) + KeepWordAndSpace(s[1..])
  }

  lemma {:induction false} KeepWordAndSpaceAppend(a: string, b: string)
    ensures KeepWordAndSpace(a + b) == KeepWordAndSpace(a) + KeepWordAndSpace(b)
    decreases |a|
  {
    if a == [] {
      assert a + b == b;
    } else {
      assert (a + b)[1..] == a[1..] + b;
      KeepWordAndSpaceAppend(a[1..], b);
    }
  }

  /**
   * `_normalize_section_key`: lower-case, drop everything that is neither a
   * word character nor whitespace, then turn each whitespace run into `_`.
   * Nothing is stripped first. The result holds only lower-case word characters.
   */
  function NormalizeSectionKey(title: string): (key: string)
    ensures forall k :: 0 <= k < |key| ==> IsWordChar(key[k]) && !IsUpper(key[k]) && !IsSpace(key[k])
  {
    var lowered := Lower(title);
    var kept := KeepWordAndSpace(lowered);
    var key := CollapseSpaces(kept);
    assert forall k :: 0 <= k < |kept| ==> !IsUpper(kept[k]) by {
      forall k | 0 <= k < |kept| ensures !IsUpper(kept[k]) {
        assert kept[k] in lowered;
      }
    }
    assert forall k :: 0 <= k < |key| ==> IsWordChar(key[k]) && !IsUpper(key[k]) by {
      CollapseSpacesChars(kept);
      forall k | 0 <= k < |key| ensures IsWordChar(key[k]) && !IsUpper(key[k]) {
        assert key[k] == '_' || key[k] in kept;
        assert !IsSpace(key[k]);
      }
    }
    key
  }

  /** Leading whitespace in a title is not stripped: the key starts with `_`. */
  lemma NormalizeKeepsLeadingSpace(title: string)
    requires title != [] && IsSpace(title[0])
    ensures var key := NormalizeSectionKey(title); key != [] && key[0] == '_'
  {
    var lowered := Lower(title);
    assert lowered == lowered[..1] + lowered[1..];
    KeepWordAndSpaceAppend(lowered[..1], lowered[1..]);
    CollapseSpacesEnds(KeepWordAndSpace(lowered));
  }

  /** Trailing whitespace in a title is not stripped: the key ends with `_`. */
  lemma NormalizeKeepsTrailingSpace(title: string)
    requires title != [] && IsSpace(title[|title| - 1])
    ensures var key := NormalizeSectionKey(title); key != [] && key[|key| - 1] == '_'
  {
    var lowered := Lower(title);
    var n := |lowered|;
    assert lowered == lowered[..n - 1] + lowered[n - 1..];
    KeepWordAndSpaceAppend(lowered[..n - 1], lowered[n - 1..]);
    var kept := KeepWordAndSpace(lowered);
    assert KeepWordAndSpace(lowered[n - 1..]) == [lowered[n - 1]];
    assert kept[|kept| - 1] == lowered[n - 1];
    CollapseSpacesEnds(kept);
  }

  /**
   * Inside the title, each whitespace run becomes exactly one `_`: when the
   * filtered, lower-cased title has no whitespace at either end, the key is
   * `'_'.join(filtered.split())`.
   */
  lemma NormalizeJoinsWords(title: string)
    requires var kept := KeepWordAndSpace(Lower(title));
      kept == [] || (!IsSpace(kept[0]) && !IsSpace(kept[|kept| - 1]))
    ensures NormalizeSectionKey(title) == JoinWith(Words(KeepWordAndSpace(Lower(title))), '_')
  {
    CollapseSpacesJoinsWords(KeepWordAndSpace(Lower(title)));
  }

  /** A key is its own key: normalising twice changes nothing. */
  lemma NormalizeIdempotent(title: string)
    ensures NormalizeSectionKey(NormalizeSectionKey(title)) == NormalizeSectionKey(title)
  {
    var key := NormalizeSectionKey(title);
    assert Lower(key) == key;
    CollapseSpacesNoSpace(key);
  }
}
