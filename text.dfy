/**
 * The string operations the app applies to the user's text, with JavaScript's
 * semantics: `s.trim()`, `s.split(/\s+/)`, `.filter(Boolean)` and `.join(' ')`.
 * Word counting (page.tsx), the break-point short-circuit and the exercise
 * topic (writeodoro.tsx) are all built from these.
 */
module Text {

  /**
   * The characters `\s` matches and `trim()` removes: ECMAScript WhiteSpace
   * (tab, vertical tab, form feed, the space separators, no-break space, BOM)
   * and LineTerminator (LF, CR, LS, PS).
   */
  predicate IsSpace(c: char) {
    || c == '\t' || c == '\n' || c == '\U{B}' || c == '\U{C}' || c == '\r'
    || c == ' ' || c == '\U{A0}' || c == '\U{1680}'
    || ('\U{2000}' <= c <= '\U{200A}')
    || c == '\U{2028}' || c == '\U{2029}' || c == '\U{202F}' || c == '\U{205F}'
    || c == '\U{3000}' || c == '\U{FEFF}'
  }

  predicate NoSpace(s: string) {
    forall k :: 0 <= k < |s| ==> !IsSpace(s[k])
  }

  predicate AllSpace(s: string) {
    forall k :: 0 <= k < |s| ==> IsSpace(s[k])
  }

  /** `s.trimStart()`: the suffix left after the leading whitespace run. */
  function TrimStart(s: string): (r: string)
    ensures |r| <= |s| && r == s[|s| - |r|..]
    ensures r == [] || !IsSpace(r[0])
  {
    if s != [] && IsSpace(s[0]) then TrimStart(s[1..]) else s
  }

  /** `s.trimEnd()`: the prefix left before the trailing whitespace run. */
  function TrimEnd(s: string): (r: string)
    ensures |r| <= |s| && r == s[..|r|]
    ensures r == [] || !IsSpace(r[|r| - 1])
  {
    if s != [] && IsSpace(s[|s| - 1]) then TrimEnd(s[..|s| - 1]) else s
  }

  /** `s.trim()`. */
  function Trim(s: string): (r: string)
    ensures r == [] || (!IsSpace(r[0]) && !IsSpace(r[|r| - 1]))
  {
    TrimEnd(TrimStart(s))
  }

  /**
   * `s.split(/\s+/)`: the fields between maximal whitespace runs. A leading
   * (trailing) run yields an empty first (last) field, and "" splits to [""].
   */
  function Split(s: string): (fields: seq<string>)
    ensures |fields| >= 1
    decreases |s|
  {
    if s == [] then [""]
    else if IsSpace(s[0]) then [""] + Split(TrimStart(s))
    else
      var rest := Split(s[1..]);
      [[s[0]] + rest[0]] + rest[1..]
  }

  /** `xs.filter(Boolean)` on strings: drops the empty ones, keeping order. */
  function NonEmpty(xs: seq<string>): (r: seq<string>)
    ensures |r| <= |xs|
  {
    if xs == [] then []
    else if xs[0] == "" then NonEmpty(xs[1..])
    else [xs[0]] + NonEmpty(xs[1..])
  }

  /** `xs.join(' ')`. */
  function Join(xs: seq<string>): string
  {
    if xs == [] then ""
    else if |xs| == 1 then xs[0]
    else xs[0] + " " + Join(xs[1..])
  }

  /** The words of the text as page.tsx computes them: `text.trim().split(/\s+/).filter(Boolean)`. */
  function Words(s: string): seq<string> {
    NonEmpty(Split(Trim(s)))
  }

  function WordCount(s: string): nat {
    |Words(s)|
  }

  /**
   * Reference count of words: the number of positions holding a non-space
   * character that starts the text (when `atBoundary`) or follows a space.
   */
  function WordStarts(s: string, atBoundary: bool): nat
  {
    if s == [] then 0
    else (if atBoundary && !IsSpace(s[0]) then 1 else 0) + WordStarts(s[1..], IsSpace(s[0]))
  }

  /** What `split` returns, as a sequence of fields: no field holds a space and only the first and last may be empty. */
  predicate WellFormedFields(xs: seq<string>) {
    && |xs| >= 1
    && (forall i :: 0 <= i < |xs| ==> NoSpace(xs[i]))
    && (forall i :: 0 < i < |xs| - 1 ==> xs[i] != "")
  }

  // ---------------------------------------------------------------------------
  // What trimming drops and what splitting produces

  /** `trimStart` drops whitespace only. */
  lemma {:induction false} TrimStartDropsSpaces(s: string)
    ensures AllSpace(s[..|s| - |TrimStart(s)|])
    decreases |s|
  {
    if s != [] && IsSpace(s[0]) {
      var t := s[1..];
      var r := TrimStart(t);
      TrimStartDropsSpaces(t);
      var dropped, rest := s[..|s| - |r|], t[..|t| - |r|];
      forall k | 0 <= k < |dropped|
        ensures IsSpace(dropped[k])
      {
        if k > 0 {
          assert dropped[k] == rest[k - 1];
        }
      }
    }
  }

  /** `trimEnd` drops whitespace only. */
  lemma {:induction false} TrimEndDropsSpaces(s: string)
    ensures AllSpace(s[|TrimEnd(s)|..])
    decreases |s|
  {
    if s != [] && IsSpace(s[|s| - 1]) {
      var r := TrimEnd(s[..|s| - 1]);
      TrimEndDropsSpaces(s[..|s| - 1]);
      assert s[|r|..] == s[..|s| - 1][|r|..] + [s[|s| - 1]];
    }
  }

  /** The first field of `split` is empty exactly when the text is empty or starts with whitespace. */
  lemma SplitFirstField(s: string)
    ensures Split(s)[0] == "" <==> s == [] || IsSpace(s[0])
  {
  }

  lemma {:induction false} SplitFieldsNoSpace(s: string)
    ensures forall i :: 0 <= i < |Split(s)| ==> NoSpace(Split(s)[i])
    decreases |s|
  {
    if s == [] {
    } else if IsSpace(s[0]) {
      SplitFieldsNoSpace(TrimStart(s));
    } else {
      var rest := Split(s[1..]);
      SplitFieldsNoSpace(s[1..]);
      assert NoSpace([s[0]] + rest[0]);
    }
  }

  lemma {:induction false} SplitInnerFieldsNonEmpty(s: string)
    ensures forall i :: 0 < i < |Split(s)| - 1 ==> Split(s)[i] != ""
    decreases |s|
  {
    if s == [] {
    } else if IsSpace(s[0]) {
      var t := TrimStart(s);
      SplitInnerFieldsNonEmpty(t);
      SplitFirstField(t);
    } else {
      SplitInnerFieldsNonEmpty(s[1..]);
    }
  }

  /** Text that starts with whitespace splits into at least two fields. */
  lemma SplitSingleFieldStart(s: string)
    ensures |Split(s)| == 1 ==> s == [] || !IsSpace(s[0])
  {
  }

  /** The last field of `split` is empty exactly when the text is empty or ends with whitespace. */
  lemma {:induction false} SplitLastField(s: string)
    ensures var fields := Split(s); fields[|fields| - 1] == "" <==> s == [] || IsSpace(s[|s| - 1])
    decreases |s|, 1
  {
    if s != [] && IsSpace(s[0]) {
      SplitLastFieldAfterSpace(s);
    } else if s != [] {
      SplitLastFieldAfterChar(s);
    }
  }

  lemma {:induction false} SplitLastFieldAfterSpace(s: string)
    requires s != [] && IsSpace(s[0])
    ensures var fields := Split(s); fields[|fields| - 1] == "" <==> IsSpace(s[|s| - 1])
    decreases |s|, 0
  {
    var t := TrimStart(s);
    assert |t| < |s|;
    SplitLastField(t);
    assert Split(s) == [""] + Split(t);
    if t == [] {
      TrimStartDropsSpaces(s);
      assert IsSpace(s[..|s|][|s| - 1]);
    } else {
      assert t[|t| - 1] == s[|s| - 1];
    }
  }

  /** A character that is not whitespace joins the first field of the rest. */
  lemma SplitAfterChar(s: string)
    requires s != [] && !IsSpace(s[0])
    ensures Split(s) == [[s[0]] + Split(s[1..])[0]] + Split(s[1..])[1..]
  {
  }

  /** The last field of a split that ends in a single field. */
  lemma LastOfSingle(c: char, rest: seq<string>)
    requires |rest| == 1
    ensures var fields := [[c] + rest[0]] + rest[1..]; fields[|fields| - 1] == [c] + rest[0]
  {
  }

  /** The last field of a split with several fields. */
  lemma LastOfSeveral(c: char, rest: seq<string>)
    requires |rest| > 1
    ensures var fields := [[c] + rest[0]] + rest[1..]; fields[|fields| - 1] == rest[|rest| - 1]
  {
  }

  lemma {:induction false} SplitLastFieldAfterChar(s: string)
    requires s != [] && !IsSpace(s[0])
    ensures var fields := Split(s); fields[|fields| - 1] == "" <==> IsSpace(s[|s| - 1])
    decreases |s|, 0
  {
    var tail := s[1..];
    var rest := Split(tail);
    SplitAfterChar(s);
    if |rest| == 1 {
      LastOfSingle(s[0], rest);
      if tail != [] {
        SplitLastField(tail);
        SplitSingleFieldStart(tail);
        SplitFirstField(tail);
        assert s[|s| - 1] == tail[|tail| - 1];
      }
    } else {
      LastOfSeveral(s[0], rest);
      SplitLastField(tail);
      assert s[|s| - 1] == tail[|tail| - 1];
    }
  }

  /**
   * The fields of `split` hold no whitespace, and only the first and the last
   * can be empty: the first exactly when the text starts with whitespace (or
   * is empty), the last exactly when it ends with whitespace.
   */
  lemma SplitShape(s: string)
    ensures WellFormedFields(Split(s))
    ensures Split(s)[0] == "" <==> s == [] || IsSpace(s[0])
    ensures var fields := Split(s); fields[|fields| - 1] == "" <==> s == [] || IsSpace(s[|s| - 1])
  {
    SplitFieldsNoSpace(s);
    SplitInnerFieldsNonEmpty(s);
    SplitFirstField(s);
    SplitLastField(s);
  }

  /** `filter(Boolean)` keeps only non-empty strings, each taken from its input. */
  lemma {:induction false} NonEmptyFields(xs: seq<string>)
    ensures forall i :: 0 <= i < |NonEmpty(xs)| ==> NonEmpty(xs)[i] != "" && NonEmpty(xs)[i] in xs
  {
    if xs != [] {
      NonEmptyFields(xs[1..]);
    }
  }

  /** Filtering a concatenation filters each part, so the kept fields stay in order. */
  lemma {:induction false} NonEmptyAppend(a: seq<string>, b: seq<string>)
    ensures NonEmpty(a + b) == NonEmpty(a) + NonEmpty(b)
    decreases |a|
  {
    if a == [] {
      assert a + b == b;
    } else {
      assert (a + b)[0] == a[0];
      assert (a + b)[1..] == a[1..] + b;
      NonEmptyAppend(a[1..], b);
    }
  }

  /** Exactly the empty fields are dropped: the kept ones and the empty ones add up to the input. */
  lemma {:induction false} NonEmptyCount(xs: seq<string>)
    ensures |NonEmpty(xs)| + multiset(xs)[""] == |xs|
    decreases |xs|
  {
    if xs != [] {
      NonEmptyCount(xs[1..]);
      assert xs == [xs[0]] + xs[1..];
      assert multiset(xs) == multiset{xs[0]} + multiset(xs[1..]);
    }
  }

  // ---------------------------------------------------------------------------
  // Word counting

  lemma {:induction false} WordStartsAfterSpaces(s: string)
    ensures WordStarts(s, true) == WordStarts(TrimStart(s), true)
    decreases |s|
  {
    if s != [] && IsSpace(s[0]) {
      WordStartsAfterSpaces(s[1..]);
    }
  }

  lemma {:induction false} WordStartsOfSpaces(s: string, b: bool)
    requires AllSpace(s)
    ensures WordStarts(s, b) == 0
    decreases |s|
  {
    if s != [] {
      WordStartsOfSpaces(s[1..], true);
    }
  }

  lemma {:induction false} WordStartsAppend(a: string, b: string, atBoundary: bool)
    ensures WordStarts(a + b, atBoundary)
         == WordStarts(a, atBoundary) + WordStarts(b, if a == [] then atBoundary else IsSpace(a[|a| - 1]))
    decreases |a|
  {
    if a != [] {
      assert (a + b)[0] == a[0];
      assert (a + b)[1..] == a[1..] + b;
      WordStartsAppend(a[1..], b, IsSpace(a[0]));
      if a[1..] != [] {
        assert a[1..][|a[1..]| - 1] == a[|a| - 1];
      }
    } else {
      assert a + b == b;
    }
  }

  /** Trailing whitespace starts no word. */
  lemma WordStartsTrimEnd(s: string)
    ensures WordStarts(s, true) == WordStarts(TrimEnd(s), true)
  {
    var r := TrimEnd(s);
    assert s == r + s[|r|..];
    WordStartsAppend(r, s[|r|..], true);
    TrimEndDropsSpaces(s);
    WordStartsOfSpaces(s[|r|..], if r == [] then true else IsSpace(r[|r| - 1]));
  }

  /** The non-empty fields of `split` are exactly the word starts (and so are the fields after the first, when not at a boundary). */
  lemma {:induction false} NonEmptyFieldsAreWordStarts(s: string)
    ensures WordStarts(s, true) == |NonEmpty(Split(s))|
    ensures WordStarts(s, false) == |NonEmpty(Split(s)[1..])|
    decreases |s|
  {
    if s == [] {
    } else if IsSpace(s[0]) {
      var t := TrimStart(s);
      NonEmptyFieldsAreWordStarts(t);
      WordStartsAfterSpaces(s[1..]);
      assert TrimStart(s[1..]) == t;
      assert Split(s)[1..] == Split(t);
      assert NonEmpty(Split(s)) == NonEmpty(Split(t));
    } else {
      var rest := Split(s[1..]);
      NonEmptyFieldsAreWordStarts(s[1..]);
      assert Split(s)[1..] == rest[1..];
      assert NonEmpty(Split(s)) == [Split(s)[0]] + NonEmpty(rest[1..]);
      assert rest == [rest[0]] + rest[1..];
      if rest[0] == "" {
        assert NonEmpty(rest) == NonEmpty(rest[1..]);
      } else {
        assert NonEmpty(rest) == [rest[0]] + NonEmpty(rest[1..]);
      }
    }
  }

  /** page.tsx's word count equals the number of word starts in the untrimmed text. */
  lemma WordCountIsWordStarts(s: string)
    ensures WordCount(s) == WordStarts(s, true)
  {
    WordStartsAfterSpaces(s);
    WordStartsTrimEnd(TrimStart(s));
    NonEmptyFieldsAreWordStarts(Trim(s));
  }

  lemma {:induction false} NonEmptyIdentity(xs: seq<string>)
    requires forall i :: 0 <= i < |xs| ==> xs[i] != ""
    ensures NonEmpty(xs) == xs
  {
    if xs != [] {
      NonEmptyIdentity(xs[1..]);
    }
  }

  /**
   * `text.trim().split(/\s+/).length` (without the filter) is the word count,
   * except that blank text still splits to one (empty) field.
   */
  lemma TrimmedFieldCount(s: string)
    ensures |Split(Trim(s))| == if Trim(s) == "" then 1 else WordCount(s)
  {
    var fields := Split(Trim(s));
    SplitShape(Trim(s));
    if Trim(s) != "" {
      assert forall i :: 0 <= i < |fields| ==> fields[i] != "";
      NonEmptyIdentity(fields);
    }
  }

  lemma BlankTextHasNoWords(s: string)
    requires Trim(s) == ""
    ensures WordCount(s) == 0
  {
  }

  /** Text is blank exactly when it has no words. */
  lemma BlankIffNoWords(s: string)
    ensures Trim(s) == "" <==> WordCount(s) == 0
  {
    TrimmedFieldCount(s);
    if Trim(s) == "" {
      BlankTextHasNoWords(s);
    }
  }

  // ---------------------------------------------------------------------------
  // Splitting and joining

  lemma {:induction false} SplitWordPrefix(w: string, t: string)
    requires w != [] && NoSpace(w)
    ensures Split(w + t) == [w + Split(t)[0]] + Split(t)[1..]
    decreases |w|
  {
    var s := w + t;
    assert s[0] == w[0] && !IsSpace(s[0]);
    assert s[1..] == w[1..] + t;
    var rest := Split(s[1..]);
    assert Split(s) == [[w[0]] + rest[0]] + rest[1..];
    if |w| > 1 {
      SplitWordPrefix(w[1..], t);
      assert rest[0] == w[1..] + Split(t)[0];
      assert [w[0]] + (w[1..] + Split(t)[0]) == w + Split(t)[0];
    } else {
      assert s[1..] == t;
      assert [w[0]] == w;
    }
  }

  lemma SplitEmptyOnly(s: string)
    requires Split(s) == [""]
    ensures s == ""
  {
  }

  /** A single space before text that does not start with whitespace opens a new field. */
  lemma SplitAfterSeparator(tail: string)
    requires tail == [] || !IsSpace(tail[0])
    ensures Split(" " + tail) == [""] + Split(tail)
  {
    var spaced := " " + tail;
    assert spaced[1..] == tail;
    assert TrimStart(spaced) == tail;
  }

  /** Joined well-formed fields after the first start with a non-space character, or are empty. */
  lemma JoinTailStart(xs: seq<string>)
    requires |xs| >= 2 && WellFormedFields(xs)
    ensures var tail := Join(xs[1..]); tail == [] || !IsSpace(tail[0])
  {
    var tail := Join(xs[1..]);
    if |xs| > 2 {
      assert xs[1] != "";
      assert tail == xs[1] + " " + Join(xs[2..]);
      assert tail[0] == xs[1][0];
    } else {
      assert tail == xs[1];
    }
  }

  lemma SplitSingleField(w: string)
    requires NoSpace(w)
    ensures Split(w) == [w]
  {
    if w != "" {
      SplitWordPrefix(w, "");
      assert w + "" == w;
    }
  }

  lemma SplitFieldThenSeparator(w: string, tail: string)
    requires NoSpace(w)
    requires tail == [] || !IsSpace(tail[0])
    ensures Split(w + " " + tail) == [w] + Split(tail)
  {
    SplitAfterSeparator(tail);
    var spaced := " " + tail;
    assert w + " " + tail == w + spaced;
    if w == "" {
      assert w + spaced == spaced;
    } else {
      SplitWordPrefix(w, spaced);
      assert w + "" == w;
    }
  }

  /** `split` undoes `join` on every sequence of fields that `split` can produce. */
  lemma {:induction false} SplitJoin(xs: seq<string>)
    requires WellFormedFields(xs)
    ensures Split(Join(xs)) == xs
    decreases |xs|
  {
    if |xs| == 1 {
      SplitSingleField(xs[0]);
    } else {
      var tail := Join(xs[1..]);
      assert WellFormedFields(xs[1..]);
      SplitJoin(xs[1..]);
      JoinTailStart(xs);
      assert Join(xs) == xs[0] + " " + tail;
      SplitFieldThenSeparator(xs[0], tail);
      assert xs == [xs[0]] + xs[1..];
    }
  }

  lemma PrefixWellFormed(xs: seq<string>, n: nat)
    requires WellFormedFields(xs) && 1 <= n <= |xs|
    ensures WellFormedFields(xs[..n])
  {
  }

  lemma {:induction false} JoinEmpty(xs: seq<string>)
    requires |xs| >= 1 && Join(xs) == ""
    ensures xs == [""]
  {
  }

  // ---------------------------------------------------------------------------
  // What the fields hold

  /** The text with every maximal run of whitespace replaced by one space. */
  function CollapseSpaces(s: string): string
    decreases |s|
  {
    if s == [] then []
    else if IsSpace(s[0]) then " " + CollapseSpaces(TrimStart(s))
    else [s[0]] + CollapseSpaces(s[1..])
  }

  lemma JoinAfterEmpty(fields: seq<string>)
    requires |fields| >= 1
    ensures Join([""] + fields) == " " + Join(fields)
  {
    var xs := [""] + fields;
    assert xs[1..] == fields;
  }

  /** Joining at least two fields puts one space after the first. */
  lemma JoinOfSeveral(xs: seq<string>)
    requires |xs| >= 2
    ensures Join(xs) == xs[0] + " " + Join(xs[1..])
  {
  }

  lemma PrependCharAssoc(c: char, a: string, b: string)
    ensures ([c] + a) + b == [c] + (a + b)
  {
  }

  /** A character before the first of several fields stays in front of the joined text. */
  lemma JoinAfterCharSeveral(c: char, rest: seq<string>)
    requires |rest| >= 2
    ensures Join([[c] + rest[0]] + rest[1..]) == [c] + Join(rest)
  {
    var first := [c] + rest[0];
    var xs := [first] + rest[1..];
    var tail := Join(rest[1..]);
    calc {
      Join(xs);
    == { JoinOfSeveral(xs); assert xs[0] == first && xs[1..] == rest[1..]; }
      first + " " + tail;
    == { PrependCharAssoc(c, rest[0], " " + tail); }
      [c] + (rest[0] + " " + tail);
    == { JoinOfSeveral(rest); }
      [c] + Join(rest);
    }
  }

  lemma JoinAfterChar(c: char, rest: seq<string>)
    requires |rest| >= 1
    ensures Join([[c] + rest[0]] + rest[1..]) == [c] + Join(rest)
  {
    if |rest| == 1 {
      assert [[c] + rest[0]] + rest[1..] == [[c] + rest[0]];
    } else {
      JoinAfterCharSeveral(c, rest);
    }
  }

  /**
   * The fields hold the text between whitespace runs: joined with single
   * spaces they give the text with each whitespace run collapsed.
   */
  lemma {:induction false} JoinSplit(s: string)
    ensures Join(Split(s)) == CollapseSpaces(s)
    decreases |s|
  {
    if s == [] {
    } else if IsSpace(s[0]) {
      var t := TrimStart(s);
      JoinSplit(t);
      JoinAfterEmpty(Split(t));
    } else {
      JoinSplit(s[1..]);
      JoinAfterChar(s[0], Split(s[1..]));
    }
  }

  /** Splitting depends only on the collapsed text: each field is a maximal run of non-space characters. */
  lemma SplitOfCollapsed(s: string)
    ensures Split(s) == Split(CollapseSpaces(s))
  {
    SplitShape(s);
    SplitJoin(Split(s));
    JoinSplit(s);
  }
}
