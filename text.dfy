/**
 * The slice of Python's `str` behaviour the system relies on, restricted to
 * ASCII: `isspace`, `lower`, `strip`, `split()`, `split('\n')`, `'\n'.join`,
 * `startswith`, `endswith`, `find`, and a case-insensitive search.
 */
module Text {
  import opened Wrappers

  /** ASCII characters for which `str.isspace()` holds: space, \t \n \v \f \r and \x1c..\x1f. */
  predicate IsSpace(c: char) {
    c == ' ' || (9 <= c as int <= 13) || (28 <= c as int <= 31)
  }

  predicate IsUpper(c: char) {
    'A' <= c <= 'Z'
  }

  /** The ASCII part of the regular-expression class `\w`. */
  predicate IsWordChar(c: char) {
    ('a' <= c <= 'z') || ('A' <= c <= 'Z') || ('0' <= c <= '9') || c == '_'
  }

  function LowerChar(c: char): (r: char)
    ensures !IsUpper(r)
    ensures !IsUpper(c) ==> r == c
    ensures IsSpace(r) <==> IsSpace(c)
    ensures IsWordChar(r) <==> IsWordChar(c)
  {
    if IsUpper(c) then (c as int + 32) as char else c
  }

  /** `s.lower()` */
  function Lower(s: string): (r: string)
    ensures |r| == |s|
    ensures forall k :: 0 <= k < |s| ==> r[k] == LowerChar(s[k])
    ensures forall k :: 0 <= k < |r| ==> !IsUpper(r[k])
  {
    seq(|s|, k requires 0 <= k < |s| => LowerChar(s[k]))
  }

  /** `s.lstrip()` */
  function LStrip(s: string): (r: string)
    ensures |r| <= |s|
    ensures r == [] || !IsSpace(r[0])
    decreases |s|
  {
    if s != [] && IsSpace(s[0]) then LStrip(s[1..]) else s
  }

  /** `s.rstrip()` */
  function RStrip(s: string): (r: string)
    ensures |r| <= |s|
    ensures r == [] || !IsSpace(r[|r| - 1])
    decreases |s|
  {
    if s != [] && IsSpace(s[|s| - 1]) then RStrip(s[..|s| - 1]) else s
  }

  /** `lstrip()` removes whitespace only, and keeps the rest in place. */
  lemma {:induction false} LStripFacts(s: string)
    ensures var r := LStrip(s);
      && r == s[|s| - |r|..]
      && forall k :: 0 <= k < |s| - |r| ==> IsSpace(s[k])
    decreases |s|
  {
    if s != [] && IsSpace(s[0]) {
      LStripFacts(s[1..]);
    }
  }

  /** `rstrip()` removes whitespace only, and keeps the rest in place. */
  lemma {:induction false} RStripFacts(s: string)
    ensures var r := RStrip(s);
      && r == s[..|r|]
      && forall k :: |r| <= k < |s| ==> IsSpace(s[k])
    decreases |s|
  {
    if s != [] && IsSpace(s[|s| - 1]) {
      RStripFacts(s[..|s| - 1]);
    }
  }

  /** `s.strip()`: no whitespace is left at either end. */
  function Strip(s: string): (r: string)
    ensures |r| <= |s|
    ensures r == [] || (!IsSpace(r[0]) && !IsSpace(r[|r| - 1]))
    ensures s != [] && !IsSpace(s[0]) ==> r != [] && r[0] == s[0]
  {
    RStripFacts(s);
    LStripFacts(RStrip(s));
    LStrip(RStrip(s))
  }

  /** `r` is the slice of `s` at `i`, with only whitespace before and after it. */
  predicate SpaceAround(s: string, r: string, i: int) {
    && 0 <= i && i + |r| <= |s| && r == s[i..i + |r|]
    && (forall k :: 0 <= k < i ==> IsSpace(s[k]))
    && (forall k :: i + |r| <= k < |s| ==> IsSpace(s[k]))
  }

  /** `strip()` keeps a contiguous slice of `s` and removes only whitespace around it. */
  lemma StripFacts(s: string)
    ensures exists i :: SpaceAround(s, Strip(s), i)
  {
    var m := RStrip(s);
    var r := Strip(s);
    RStripFacts(s);
    LStripFacts(m);
    var i := |m| - |r|;
    assert r == m[i..];
    assert r == s[i..i + |r|];
    assert forall k :: 0 <= k < i ==> IsSpace(s[k]) by {
      forall k | 0 <= k < i ensures IsSpace(s[k]) {
        assert s[k] == m[k];
      }
    }
    assert SpaceAround(s, r, i);
  }

  /** Stripping a string with whitespace at either end shortens it. */
  lemma StripShortens(s: string)
    requires s != [] && (IsSpace(s[0]) || IsSpace(s[|s| - 1]))
    ensures |Strip(s)| < |s|
  {
    StripFacts(s);
  }

  predicate StartsWith(s: string, prefix: string) {
    |prefix| <= |s| && s[..|prefix|] == prefix
  }

  predicate EndsWith(s: string, suffix: string) {
    |suffix| <= |s| && s[|s| - |suffix|..] == suffix
  }

  /** `s.replace(a, b)` for single characters. */
  function ReplaceChar(s: string, a: char, b: char): (r: string)
    ensures |r| == |s|
    ensures forall k :: 0 <= k < |s| ==> r[k] == (if s[k] == a then b else s[k])
  {
    seq(|s|, k requires 0 <= k < |s| => if s[k] == a then b else s[k])
  }

  /** The longest prefix of `s` holding no whitespace. */
  function TakeWord(s: string): (w: string)
    ensures |w| <= |s|
    ensures forall k {:trigger w[k]} :: 0 <= k < |w| ==> w[k] == s[k] && !IsSpace(w[k])
    ensures |w| == |s| || IsSpace(s[|w|])
    ensures s != [] && !IsSpace(s[0]) ==> |w| >= 1
  {
    if s == [] || IsSpace(s[0]) then [] else [s[0]] + TakeWord(s[1..])
  }

  /** `s.split()`: the maximal runs of non-whitespace characters, in order. */
  function Words(s: string): (ws: seq<string>)
    decreases |s|
  {
    var t := LStrip(s);
    if t == [] then []
    else
      var w := TakeWord(t);
      [w] + Words(t[|w|..])
  }

  /**
   * `len(s.split())` counted in one left-to-right scan: a word starts at each
   * non-whitespace character that does not continue a word.
   */
  function CountWords(s: string): nat {
    CountWordsFrom(s, false)
  }

  function CountWordsFrom(s: string, inWord: bool): nat
    decreases |s|
  {
    if s == [] then 0
    else if IsSpace(s[0]) then CountWordsFrom(s[1..], false)
    else (if inWord then 0 else 1) + CountWordsFrom(s[1..], true)
  }

  /** Inside a word, the scan counts nothing until the word ends. */
  lemma {:induction false} CountWordsInWord(x: string)
    ensures CountWordsFrom(x, true) == CountWordsFrom(x[|TakeWord(x)|..], false)
    decreases |x|
  {
    if x != [] && !IsSpace(x[0]) {
      CountWordsInWord(x[1..]);
      assert x[|TakeWord(x)|..] == x[1..][|TakeWord(x[1..])|..];
    }
  }

  /** The scan counts exactly the words `split()` returns. */
  lemma {:induction false} CountWordsIsSplitLength(s: string)
    ensures CountWords(s) == |Words(s)|
    decreases |s|
  {
    if s == [] {
    } else if IsSpace(s[0]) {
      CountWordsIsSplitLength(s[1..]);
      assert LStrip(s) == LStrip(s[1..]);
    } else {
      var w := TakeWord(s);
      WordsOfWordStart(s);
      CountWordsInWord(s[1..]);
      assert s[|w|..] == s[1..][|TakeWord(s[1..])|..];
      CountWordsIsSplitLength(s[|w|..]);
    }
  }

  /** `s.split('\n')`: never empty; `""` gives `[""]`. */
  function SplitLines(s: string): (ls: seq<string>)
    ensures |ls| >= 1
    ensures forall k :: 0 <= k < |ls| ==> '\n' !in ls[k]
    decreases |s|
  {
    if s == [] then [""]
    else
      var rest := SplitLines(s[1..]);
      if s[0] == '\n' then [""] + rest else [[s[0]] + rest[0]] + rest[1..]
  }

  /** `'\n'.join(ls)` */
  function JoinLines(ls: seq<string>): string {
    if ls == [] then ""
    else if |ls| == 1 then ls[0]
    else ls[0] + "\n" + JoinLines(ls[1..])
  }

  /** `sep.join(ws)` for a one-character separator. */
  function JoinWith(ws: seq<string>, sep: char): string {
    if ws == [] then ""
    else if |ws| == 1 then ws[0]
    else ws[0] + [sep] + JoinWith(ws[1..], sep)
  }

  predicate MatchAt(s: string, sub: string, i: nat) {
    i + |sub| <= |s| && s[i..i + |sub|] == sub
  }

  /** `s.find(sub)`, with `None` for Python's `-1`. */
  function IndexOf(s: string, sub: string): (r: Option<nat>)
    ensures r.Some? ==> MatchAt(s, sub, r.value)
    ensures r.Some? ==> forall j: nat :: j < r.value ==> !MatchAt(s, sub, j)
    ensures r.None? ==> forall j: nat :: !MatchAt(s, sub, j)
    decreases |s|
  {
    if |s| < |sub| then None
    else if s[..|sub|] == sub then Some(0)
    else
      assert !MatchAt(s, sub, 0) by { assert s[0..|sub|] == s[..|sub|]; }
      assert forall j: nat :: 1 <= j && MatchAt(s, sub, j) ==> MatchAt(s[1..], sub, j - 1) by {
        forall j: nat | 1 <= j && MatchAt(s, sub, j) ensures MatchAt(s[1..], sub, j - 1) {
          assert s[1..][j - 1..j - 1 + |sub|] == s[j..j + |sub|];
        }
      }
      match IndexOf(s[1..], sub)
      case None => None
      case Some(k) =>
        assert s[k + 1..k + 1 + |sub|] == s[1..][k..k + |sub|];
        Some(k + 1)
  }

  /** A match with no earlier match is the one `find` returns. */
  lemma FirstMatchIsIndex(s: string, sub: string, p: nat)
    requires MatchAt(s, sub, p) && forall j: nat :: j < p ==> !MatchAt(s, sub, j)
    ensures IndexOf(s, sub) == Some(p)
  {
  }

  /** `re.search(re.escape(term), s, re.IGNORECASE)`: the start of the first match. */
  function FindIgnoreCase(s: string, term: string): Option<nat> {
    IndexOf(Lower(s), Lower(term))
  }

  predicate ContainsIgnoreCase(s: string, term: string) {
    FindIgnoreCase(s, term).Some?
  }

  /**
   * `re.sub(r'\s+', '_', s)`: every maximal whitespace run becomes one `_`;
   * a run at either end is kept as `_`, not dropped.
   */
  function CollapseSpaces(s: string): (r: string)
    ensures |r| <= |s|
    ensures forall k :: 0 <= k < |r| ==> !IsSpace(r[k])
    decreases |s|
  {
    if s == [] then []
    else if IsSpace(s[0]) then "_" + CollapseSpaces(LStrip(s[1..]))
    else [s[0]] + CollapseSpaces(s[1..])
  }

  /** Every character of the collapsed text is `_` or a character of the input. */
  lemma {:induction false} CollapseSpacesChars(s: string)
    ensures forall k :: 0 <= k < |CollapseSpaces(s)| ==> CollapseSpaces(s)[k] == '_' || CollapseSpaces(s)[k] in s
    decreases |s|
  {
    if s != [] {
      if IsSpace(s[0]) {
        var t := LStrip(s[1..]);
        CollapseSpacesChars(t);
        LStripFacts(s[1..]);
        assert forall c :: c in t ==> c in s;
      } else {
        CollapseSpacesChars(s[1..]);
      }
    }
  }

  /** Text without whitespace is left as it is. */
  lemma {:induction false} CollapseSpacesNoSpace(s: string)
    requires forall k :: 0 <= k < |s| ==> !IsSpace(s[k])
    ensures CollapseSpaces(s) == s
    decreases |s|
  {
    if s != [] {
      CollapseSpacesNoSpace(s[1..]);
    }
  }

  /** A whitespace run at either end of the text is kept as one `_`. */
  lemma {:induction false} CollapseSpacesEnds(s: string)
    requires s != []
    ensures CollapseSpaces(s) != []
    ensures IsSpace(s[0]) ==> CollapseSpaces(s)[0] == '_'
    ensures !IsSpace(s[0]) ==> CollapseSpaces(s)[0] == s[0]
    ensures CollapseSpaces(s)[|CollapseSpaces(s)| - 1] == (if IsSpace(s[|s| - 1]) then '_' else s[|s| - 1])
    decreases |s|
  {
    if IsSpace(s[0]) {
      var t := LStrip(s[1..]);
      LStripFacts(s[1..]);
      if t != [] {
        assert t[|t| - 1] == s[|s| - 1];
        CollapseSpacesEnds(t);
      }
    } else if |s| > 1 {
      CollapseSpacesEnds(s[1..]);
    }
  }

  // ---------------------------------------------------------------------------
  // Facts about the functions above used by the rest of the model.
  // ---------------------------------------------------------------------------

  lemma {:induction false} SplitLinesAppend(a: string, b: string)
    ensures SplitLines(a + "\n" + b) == SplitLines(a) + SplitLines(b)
    decreases |a|
  {
    var s := a + "\n" + b;
    if a == [] {
      assert s[1..] == b;
    } else {
      assert s[1..] == a[1..] + "\n" + b;
      SplitLinesAppend(a[1..], b);
    }
  }

  lemma {:induction false} SplitLinesSingle(a: string)
    requires '\n' !in a
    ensures SplitLines(a) == [a]
    decreases |a|
  {
    if a != [] {
      SplitLinesSingle(a[1..]);
      assert [a[0]] + a[1..] == a;
    }
  }

  /** A line followed by one empty line, as written by `f.write(f"{x}\n\n")`. */
  lemma SplitLinesBlock(x: string, rest: string)
    requires '\n' !in x
    ensures SplitLines(x + "\n\n" + rest) == [x, ""] + SplitLines(rest)
  {
    assert x + "\n\n" + rest == x + "\n" + ("" + "\n" + rest);
    SplitLinesAppend(x, "" + "\n" + rest);
    SplitLinesAppend("", rest);
    SplitLinesSingle(x);
  }

  /** Right-stripping skips over a prefix that ends in a non-space character. */
  lemma {:induction false} RStripAfterPrefix(p: string, x: string)
    requires p != [] && !IsSpace(p[|p| - 1])
    ensures RStrip(p + x) == p + RStrip(x)
    decreases |x|
  {
    if x != [] && IsSpace(x[|x| - 1]) {
      assert (p + x)[..|p + x| - 1] == p + x[..|x| - 1];
      RStripAfterPrefix(p, x[..|x| - 1]);
    } else if x == [] {
      assert p + x == p;
    }
  }

  /** Stripping keeps a prefix that neither starts nor ends with whitespace. */
  lemma StripAfterPrefix(p: string, x: string)
    requires p != [] && !IsSpace(p[0]) && !IsSpace(p[|p| - 1])
    ensures Strip(p + x) == p + RStrip(x)
  {
    RStripAfterPrefix(p, x);
  }

  /** Stripping a leading space does not change the stripped value. */
  lemma StripLeadingSpace(v: string)
    ensures Strip(RStrip(" " + v)) == Strip(v)
  {
    if RStrip(v) == [] {
      RStripAllSpace(" " + v);
    } else {
      assert " " + v == " " + v[..|v|];
      RStripAfterPrefixSpace(v);
      assert LStrip(" " + RStrip(v)) == LStrip(RStrip(v));
    }
  }

  lemma {:induction false} RStripAllSpace(s: string)
    requires s != [] && IsSpace(s[0]) && RStrip(s[1..]) == []
    ensures RStrip(s) == []
    decreases |s|
  {
    if |s| > 1 {
      assert IsSpace(s[|s| - 1]);
      assert s[..|s| - 1][1..] == s[1..][..|s| - 2];
      assert RStrip(s[1..]) == RStrip(s[1..][..|s| - 2]);
      RStripAllSpace(s[..|s| - 1]);
    }
  }

  lemma {:induction false} RStripAfterPrefixSpace(v: string)
    requires RStrip(v) != []
    ensures RStrip(" " + v) == " " + RStrip(v)
    decreases |v|
  {
    if v != [] && IsSpace(v[|v| - 1]) {
      assert (" " + v)[..|" " + v| - 1] == " " + v[..|v| - 1];
      RStripAfterPrefixSpace(v[..|v| - 1]);
    }
  }

  /** A leading space never survives `strip()`. */
  lemma StripAfterSpace(v: string)
    ensures Strip(" " + v) == Strip(v)
  {
    if RStrip(v) == [] {
      RStripAllSpace(" " + v);
    } else {
      RStripAfterPrefixSpace(v);
      assert (" " + RStrip(v))[1..] == RStrip(v);
    }
  }

  /** Stripping a line that begins with a non-space character keeps that character. */
  lemma StripKeepsFirst(s: string)
    requires s != [] && !IsSpace(s[0])
    ensures Strip(s) != [] && Strip(s)[0] == s[0]
  {
  }

  lemma {:induction false} JoinLinesFirst(ls: seq<string>)
    requires ls != [] && ls[0] != []
    ensures JoinLines(ls) != [] && JoinLines(ls)[0] == ls[0][0]
  {
  }

  /** A string always contains itself, ignoring case. */
  lemma ContainsItself(s: string)
    ensures ContainsIgnoreCase(s, s)
  {
    assert Lower(s)[..|Lower(s)|] == Lower(s);
  }
  /** Collapsing whitespace after a word that holds none leaves the word in front. */
  lemma {:induction false} CollapseAfterWord(w: string, rest: string)
    requires forall k :: 0 <= k < |w| ==> !IsSpace(w[k])
    ensures CollapseSpaces(w + rest) == w + CollapseSpaces(rest)
    decreases |w|
  {
    if w == [] {
      assert w + rest == rest;
    } else {
      var s := w + rest;
      assert s[0] == w[0] && !IsSpace(s[0]);
      assert s[1..] == w[1..] + rest;
      assert CollapseSpaces(s) == [w[0]] + CollapseSpaces(w[1..] + rest);
      CollapseAfterWord(w[1..], rest);
      assert w == [w[0]] + w[1..];
    }
  }

  lemma LStripIdempotent(s: string)
    ensures LStrip(LStrip(s)) == LStrip(s)
  {
  }

  /** Leading whitespace does not change the words of a text. */
  lemma WordsAfterSpace(s: string)
    requires s != [] && IsSpace(s[0])
    ensures Words(s) == Words(LStrip(s[1..]))
  {
    LStripIdempotent(s[1..]);
    assert LStrip(s) == LStrip(s[1..]);
  }

  /** A text that starts with a word splits into that word and the words of what follows it. */
  lemma WordsOfWordStart(s: string)
    requires s != [] && !IsSpace(s[0])
    ensures Words(s) == [TakeWord(s)] + Words(s[|TakeWord(s)|..])
  {
    assert LStrip(s) == s;
  }

  lemma LStripKeepsLast(x: string)
    requires x != [] && !IsSpace(x[|x| - 1])
    ensures LStrip(x) != [] && LStrip(x)[|LStrip(x)| - 1] == x[|x| - 1]
  {
  }

  /** After a word, a whitespace run becomes one `_` and the words that follow are those of the rest. */
  lemma CollapseAfterSpace(rest: string)
    requires rest != [] && IsSpace(rest[0])
    ensures CollapseSpaces(rest) == ['_'] + CollapseSpaces(LStrip(rest[1..]))
    ensures Words(rest) == Words(LStrip(rest[1..]))
  {
    WordsAfterSpace(rest);
  }

  /** A text is its first word followed by what comes after it, which starts with whitespace. */
  lemma AfterFirstWord(s: string)
    requires s != [] && !IsSpace(s[|s| - 1])
    ensures var w := TakeWord(s); var rest := s[|w|..];
      && s == w + rest
      && (rest != [] ==> |rest| > 1 && IsSpace(rest[0]) && !IsSpace(rest[1..][|rest[1..]| - 1]))
  {
    var w := TakeWord(s);
    assert w == s[..|w|];
  }

  /** A concatenation starts with its first part and ends with its last. */
  lemma FramedBy(p: string, m: string, e: string)
    ensures StartsWith(p + m + e, p) && EndsWith(p + m + e, e)
  {
    assert (p + m + e)[..|p|] == p;
    assert (p + m + e)[|p + m|..] == e;
  }

  lemma SeqAssoc(a: string, b: string, c: string)
    ensures a + (b + c) == a + b + c
  {
  }

  lemma JoinWithCons(w: string, ws: seq<string>, sep: char)
    requires ws != []
    ensures JoinWith([w] + ws, sep) == w + [sep] + JoinWith(ws, sep)
  {
    assert ([w] + ws)[1..] == ws;
  }

  /**
   * For text with no whitespace at either end, collapsing every whitespace
   * run to `_` is the same as `'_'.join(s.split())`.
   */
  lemma {:induction false} CollapseSpacesJoinsWords(s: string)
    requires s == [] || (!IsSpace(s[0]) && !IsSpace(s[|s| - 1]))
    ensures CollapseSpaces(s) == JoinWith(Words(s), '_')
    decreases |s|, 2
  {
    if s != [] {
      JoinsWordsNonEmpty(s);
    }
  }

  lemma {:induction false} JoinsWordsNonEmpty(s: string)
    requires s != [] && !IsSpace(s[0]) && !IsSpace(s[|s| - 1])
    ensures CollapseSpaces(s) == JoinWith(Words(s), '_')
    decreases |s|, 1
  {
    if s[|TakeWord(s)|..] == [] {
      OneWord(s);
    } else {
      MoreWords(s);
    }
  }

  lemma OneWord(s: string)
    requires s != [] && !IsSpace(s[0]) && s[|TakeWord(s)|..] == []
    ensures CollapseSpaces(s) == JoinWith(Words(s), '_')
  {
    var w := TakeWord(s);
    assert s == w;
    WordsOfWordStart(s);
    LastWord(w);
    assert s == w + [];
  }

  lemma {:induction false} MoreWords(s: string)
    requires s != [] && !IsSpace(s[0]) && !IsSpace(s[|s| - 1])
    requires s[|TakeWord(s)|..] != []
    ensures CollapseSpaces(s) == JoinWith(Words(s), '_')
    decreases |s|, 0
  {
    var rest := s[|TakeWord(s)|..];
    var t := LStrip(rest[1..]);
    AfterFirstWord(s);
    LStripKeepsLast(rest[1..]);
    assert |t| <= |rest[1..]| < |s|;
    CollapseSpacesJoinsWords(t);
    WordThenSpace(s);
  }

  lemma LastWord(w: string)
    requires forall k :: 0 <= k < |w| ==> !IsSpace(w[k])
    ensures CollapseSpaces(w + []) == JoinWith([w] + Words([]), '_')
  {
    CollapseAfterWord(w, []);
    assert w + [] == w;
    assert [w] + [] == [w];
  }

  /** Collapsing a text that starts with a word: the word, `_`, then the rest collapsed. */
  lemma CollapseFirstWord(s: string)
    requires s != [] && !IsSpace(s[0]) && s[|TakeWord(s)|..] != []
    ensures var rest := s[|TakeWord(s)|..];
      CollapseSpaces(s) == TakeWord(s) + ['_'] + CollapseSpaces(LStrip(rest[1..]))
  {
    var w := TakeWord(s);
    var rest := s[|w|..];
    assert s == w + rest by {
      assert w == s[..|w|];
    }
    CollapseAfterWord(w, rest);
    CollapseAfterSpace(rest);
    SeqAssoc(w, ['_'], CollapseSpaces(LStrip(rest[1..])));
  }

  /** Joining the words of a text that starts with a word and has more after it. */
  lemma JoinFirstWord(s: string)
    requires s != [] && !IsSpace(s[0])
    requires var rest := s[|TakeWord(s)|..]; rest != [] && LStrip(rest[1..]) != []
    ensures var rest := s[|TakeWord(s)|..];
      JoinWith(Words(s), '_') == TakeWord(s) + ['_'] + JoinWith(Words(LStrip(rest[1..])), '_')
  {
    var w := TakeWord(s);
    var rest := s[|w|..];
    var t := LStrip(rest[1..]);
    WordsOfWordStart(s);
    WordsAfterSpace(rest);
    WordsOfWordStart(t);
    JoinWithCons(w, Words(t), '_');
  }

  lemma WordThenSpace(s: string)
    requires s != [] && !IsSpace(s[0])
    requires var rest := s[|TakeWord(s)|..];
      && rest != []
      && var t := LStrip(rest[1..]);
         t != [] && CollapseSpaces(t) == JoinWith(Words(t), '_')
    ensures CollapseSpaces(s) == JoinWith(Words(s), '_')
  {
    CollapseFirstWord(s);
    JoinFirstWord(s);
  }
}
