/**
 * Extraction of a section's schema body, `match[1]` of
 * `/\{\%\s+schema\s+\%\}([\s\S]*?)\{\%\s+endschema\s+\%\}/m`, written as an
 * explicit scanner over the section's text.
 *
 * A tag is `{%`, one or more spaces, a word, one or more spaces, `%}`; the
 * regular expression finds the first start tag and the first end tag after
 * it, and the body is the text between the two.
 */
module SchemaScanner {
  import opened Wrappers

  /**
   * `\s` of an ECMAScript regular expression: WhiteSpace and LineTerminator
   * (ECMA-262 5.1 edition, sections 7.2, 7.3 and 15.10.2.12), with the
   * space separators of current Unicode.
   */
  predicate IsRegExpSpace(c: char) {
    c == '\t' || c == '\n' || c == '\U{B}' || c == '\U{C}' || c == '\r' || c == ' '
    || c == '\U{A0}' || c == '\U{1680}' || ('\U{2000}' <= c <= '\U{200A}')
    || c == '\U{2028}' || c == '\U{2029}' || c == '\U{202F}' || c == '\U{205F}'
    || c == '\U{3000}' || c == '\U{FEFF}'
  }

  /**
   * The usual blanks are spaces; `{`, `%`, `}` and letters are not, so a
   * run of spaces stops at a tag's word or at its closing `%}`.
   */
  lemma RegExpSpaceCases(c: char)
    ensures IsRegExpSpace(' ') && IsRegExpSpace('\t') && IsRegExpSpace('\n') && IsRegExpSpace('\r')
    ensures IsRegExpSpace('\U{A0}') && IsRegExpSpace('\U{2028}') && IsRegExpSpace('\U{FEFF}')
    ensures IsRegExpSpace(c) ==> c != '{' && c != '%' && c != '}' && !('a' <= c <= 'z') && !('A' <= c <= 'Z') && !('0' <= c <= '9')
  {
  }

  const StartWord: string := "schema"
  const EndWord: string := "endschema"

  /** A word a tag can carry: non-empty, not starting with a space, and free of `{`. */
  predicate IsTagWord(w: string) {
    |w| > 0 && !IsRegExpSpace(w[0]) && forall k | 0 <= k < |w| :: w[k] != '{'
  }

  lemma TagWords()
    ensures IsTagWord(StartWord) && IsTagWord(EndWord)
  {
  }

  ghost predicate AllSpaces(w: string) {
    forall k | 0 <= k < |w| :: IsRegExpSpace(w[k])
  }

  /**
   * `t` is one tag laid out with its `word` at `a`: `{%`, the run of spaces
   * `t[2..a]`, `word`, the run of spaces `t[a + |word|..b]`, `%}`.
   */
  ghost predicate TagLayout(t: string, word: string, a: int, b: int) {
    && 2 < a && a + |word| < b && b + 2 == |t|
    && t[0] == '{' && t[1] == '%' && t[b] == '%' && t[b + 1] == '}'
    && (forall k | 2 <= k < a :: IsRegExpSpace(t[k]))
    && t[a..a + |word|] == word
    && (forall k | a + |word| <= k < b :: IsRegExpSpace(t[k]))
  }

  /** `t` is exactly one tag: `{%`, spaces, `word`, spaces, `%}`. */
  ghost predicate IsTag(t: string, word: string) {
    exists a, b :: TagLayout(t, word, a, b)
  }

  /** Some piece of `t` is a tag for `word`. */
  ghost predicate ContainsTag(t: string, word: string) {
    exists i, e | 0 <= i <= e <= |t| :: IsTag(t[i..e], word)
  }

  /** `s` holds a start tag followed, without overlap, by an end tag: the regular expression matches. */
  ghost predicate HasSchemaBlock(s: string) {
    exists i, e, j, f | 0 <= i <= e <= j <= f <= |s| :: IsTag(s[i..e], StartWord) && IsTag(s[j..f], EndWord)
  }

  /** The end of the run of spaces that starts at `i` (what a greedy `\s*` consumes). */
  function SkipSpaces(s: string, i: nat): (j: nat)
    requires i <= |s|
    ensures i <= j <= |s|
    ensures forall k | i <= k < j :: IsRegExpSpace(s[k])
    ensures j == |s| || !IsRegExpSpace(s[j])
    decreases |s| - i
  {
    if i < |s| && IsRegExpSpace(s[i]) then SkipSpaces(s, i + 1) else i
  }

  /** The run of spaces from `i` ends exactly at `j`. */
  lemma SkipSpacesAt(s: string, i: nat, j: nat)
    requires i <= j <= |s|
    requires forall k | i <= k < j :: IsRegExpSpace(s[k])
    requires j == |s| || !IsRegExpSpace(s[j])
    ensures SkipSpaces(s, i) == j
  {
  }

  /**
   * Where a tag for `word` that starts at `i` ends, if one starts there.
   * Each `\s+` is greedy and is followed by a character that is not a space,
   * so the regular expression has no other way to match a tag.
   */
  function TagAt(s: string, i: nat, word: string): (r: Option<nat>)
    requires i <= |s|
    ensures r.Some? ==> i + 6 + |word| <= r.value <= |s|
  {
    if i + 2 <= |s| && s[i] == '{' && s[i + 1] == '%' then
      var a := SkipSpaces(s, i + 2);
      if a > i + 2 && a + |word| <= |s| && s[a..a + |word|] == word then
        var b := SkipSpaces(s, a + |word|);
        if b > a + |word| && b + 2 <= |s| && s[b] == '%' && s[b + 1] == '}' then Some(b + 2) else None
      else None
    else None
  }

  /** What `TagAt` finds is a tag. */
  lemma TagAtSound(s: string, i: nat, e: nat, word: string)
    requires i <= |s| && TagAt(s, i, word) == Some(e)
    ensures IsTag(s[i..e], word)
  {
    var a := SkipSpaces(s, i + 2);
    var b := SkipSpaces(s, a + |word|);
    var t := s[i..e];
    SliceOfSlice(s, i, e, a - i, a - i + |word|);
    assert t[0] == s[i] && t[1] == s[i + 1] && t[b - i] == s[b] && t[b - i + 1] == s[b + 1];
    forall k | 2 <= k < a - i ensures IsRegExpSpace(t[k]) {
      assert t[k] == s[i + k];
    }
    forall k | a - i + |word| <= k < b - i ensures IsRegExpSpace(t[k]) {
      assert t[k] == s[i + k];
    }
    assert TagLayout(t, word, a - i, b - i);
  }

  /** A tag written out as `{%`, spaces, `word`, spaces, `%}` is a tag. */
  lemma TagOfParts(w1: string, word: string, w2: string)
    requires |w1| > 0 && |w2| > 0 && AllSpaces(w1) && AllSpaces(w2)
    ensures IsTag("{%" + w1 + word + w2 + "%}", word)
  {
    var t := "{%" + w1 + word + w2 + "%}";
    var a := 2 + |w1|;
    var b := a + |word| + |w2|;
    TagChars(w1, word, w2);
    forall k | 2 <= k < a ensures IsRegExpSpace(t[k]) {
      assert t[2 + (k - 2)] == w1[k - 2];
    }
    assert t[a..a + |word|] == word by {
      forall k | 0 <= k < |word| ensures t[a..a + |word|][k] == word[k] {
        assert t[a + k] == t[2 + |w1| + k];
      }
    }
    forall k | a + |word| <= k < b ensures IsRegExpSpace(t[k]) {
      assert t[2 + |w1| + |word| + (k - a - |word|)] == w2[k - a - |word|];
    }
    assert TagLayout(t, word, a, b);
  }

  /** The characters of a tag, position by position. */
  lemma TagChars(w1: string, word: string, w2: string)
    ensures var t := "{%" + w1 + word + w2 + "%}";
      && |t| == |w1| + |word| + |w2| + 4
      && t[0] == '{' && t[1] == '%'
      && (forall k | 0 <= k < |w1| :: t[2 + k] == w1[k])
      && (forall k | 0 <= k < |word| :: t[2 + |w1| + k] == word[k])
      && (forall k | 0 <= k < |w2| :: t[2 + |w1| + |word| + k] == w2[k])
      && t[|t| - 2] == '%' && t[|t| - 1] == '}'
  {
  }

  /** A text shorter than `{% x %}` holds no tag. */
  lemma ShortTextHasNoTag(t: string, word: string)
    requires |t| < 6
    ensures !ContainsTag(t, word)
  {
  }

  /** A tag is at least as long as `{% word %}`. */
  lemma TagIsLong(t: string, word: string)
    requires IsTag(t, word)
    ensures |t| >= 6 + |word|
  {
  }

  /** The start tag as a theme usually writes it. */
  lemma PlainStartTag()
    ensures IsTag("{% schema %}", StartWord)
  {
    assert AllSpaces(" ") by { assert IsRegExpSpace(" "[0]); }
    TagOfParts(" ", StartWord, " ");
    assert "{%" + " " + StartWord + " " + "%}" == "{% schema %}";
  }

  /** The end tag as a theme usually writes it. */
  lemma PlainEndTag()
    ensures IsTag("{% endschema %}", EndWord)
  {
    assert AllSpaces(" ") by { assert IsRegExpSpace(" "[0]); }
    TagOfParts(" ", EndWord, " ");
    assert "{%" + " " + EndWord + " " + "%}" == "{% endschema %}";
  }

  /** A tag is found at the start of its own text. */
  lemma TagAtOwnStart(t: string, word: string)
    requires IsTagWord(word) && IsTag(t, word)
    ensures TagAt(t, 0, word) == Some(|t|)
  {
    var a, b :| TagLayout(t, word, a, b);
    assert t[a] == t[a..a + |word|][0];
    SkipSpacesAt(t, 2, a);
    SkipSpacesAt(t, a + |word|, b);
  }

  /** A run of spaces inside a slice that ends inside it is the same run in the whole string. */
  lemma SkipSpacesSlice(s: string, i: nat, e: nat, k: nat)
    requires i <= e <= |s| && k <= e - i && SkipSpaces(s[i..e], k) < e - i
    ensures SkipSpaces(s, i + k) == i + SkipSpaces(s[i..e], k)
  {
    var t := s[i..e];
    var j := SkipSpaces(t, k);
    forall m | i + k <= m < i + j ensures IsRegExpSpace(s[m]) {
      assert s[m] == t[m - i];
    }
    assert s[i + j] == t[j];
    SkipSpacesAt(s, i + k, i + j);
  }

  /** `TagAt` reads only the characters of the tag it finds. */
  lemma TagAtSlice(s: string, i: nat, e: nat, word: string)
    requires i <= e <= |s| && TagAt(s[i..e], 0, word) == Some(e - i)
    ensures TagAt(s, i, word) == Some(e)
  {
    var t := s[i..e];
    var a := SkipSpaces(t, 2);
    var b := SkipSpaces(t, a + |word|);
    SkipSpacesSlice(s, i, e, 2);
    SkipSpacesSlice(s, i, e, a + |word|);
    SliceOfSlice(s, i, e, a, a + |word|);
    assert s[i] == t[0] && s[i + 1] == t[1] && s[i + b] == t[b] && s[i + b + 1] == t[b + 1];
  }

  /** Every tag is found by `TagAt`. */
  lemma TagAtComplete(s: string, i: nat, e: nat, word: string)
    requires IsTagWord(word) && i <= e <= |s| && IsTag(s[i..e], word)
    ensures TagAt(s, i, word) == Some(e)
  {
    TagAtOwnStart(s[i..e], word);
    TagAtSlice(s, i, e, word);
  }

  /** A tag holds no `{` after its first character, so two tags never overlap. */
  lemma TagHasNoInnerBrace(s: string, i: nat, e: nat, word: string, m: nat)
    requires IsTagWord(word) && i <= |s| && TagAt(s, i, word) == Some(e) && i < m < e
    ensures s[m] != '{'
  {
    var a := SkipSpaces(s, i + 2);
    var b := SkipSpaces(s, a + |word|);
    if a <= m < a + |word| {
      assert s[m] == s[a..a + |word|][m - a] == word[m - a];
    }
  }

  /** The first tag for `word` that starts at or after `from`. */
  function FindTag(s: string, from: nat, word: string): (r: Option<(nat, nat)>)
    requires from <= |s|
    ensures r.Some? ==> from <= r.value.0 <= |s| && TagAt(s, r.value.0, word) == Some(r.value.1)
    ensures r.Some? ==> forall k | from <= k < r.value.0 :: TagAt(s, k, word).None?
    ensures r.None? ==> forall k | from <= k <= |s| :: TagAt(s, k, word).None?
    decreases |s| - from
  {
    match TagAt(s, from, word)
    case Some(e) => Some((from, e))
    case None => if from == |s| then None else FindTag(s, from + 1, word)
  }

  /**
   * Where the match lies: the start tag is `s[start..bodyStart]`, the body
   * `s[bodyStart..bodyEnd]`, the end tag `s[bodyEnd..stop]`.
   */
  datatype Span = Span(start: nat, bodyStart: nat, bodyEnd: nat, stop: nat)

  /** The leftmost start tag, and the nearest end tag after it (the lazy `[\s\S]*?`). */
  function FindSchema(s: string): (r: Option<Span>)
    ensures r.Some? ==> r.value.start < r.value.bodyStart <= r.value.bodyEnd < r.value.stop <= |s|
    ensures r.Some? ==> TagAt(s, r.value.start, StartWord) == Some(r.value.bodyStart)
    ensures r.Some? ==> forall k | 0 <= k < r.value.start :: TagAt(s, k, StartWord).None?
    ensures r.Some? ==> TagAt(s, r.value.bodyEnd, EndWord) == Some(r.value.stop)
    ensures r.Some? ==> forall k | r.value.bodyStart <= k < r.value.bodyEnd :: TagAt(s, k, EndWord).None?
    ensures r.None? ==> forall i | 0 <= i <= |s| :: TagAt(s, i, StartWord).Some? ==>
      forall k | TagAt(s, i, StartWord).value <= k <= |s| :: TagAt(s, k, EndWord).None?
  {
    match FindTag(s, 0, StartWord)
    case None => None
    case Some((i, e)) =>
      match FindTag(s, e, EndWord)
      case Some((j, f)) => Some(Span(i, e, j, f))
      case None =>
        assert forall i' | 0 <= i' <= |s| && TagAt(s, i', StartWord).Some? :: e <= TagAt(s, i', StartWord).value by {
          forall i' | 0 <= i' <= |s| && TagAt(s, i', StartWord).Some? ensures e <= TagAt(s, i', StartWord).value {
            TagWords();
            if i' > i && i' < e {
              TagHasNoInnerBrace(s, i, e, StartWord, i');
            }
          }
        }
        None
  }

  /** `match[1]`: the schema body, or None where `match` is null. */
  function ExtractSchema(s: string): (r: Option<string>)
    ensures r.Some? <==> FindSchema(s).Some?
    ensures r.Some? ==> !ContainsTag(r.value, EndWord)
  {
    match FindSchema(s)
    case None => None
    case Some(sp) =>
      NoEndTagBetween(s, sp.bodyStart, sp.bodyEnd);
      Some(s[sp.bodyStart..sp.bodyEnd])
  }

  /** A stretch of `s` where no end tag starts contains no end tag. */
  lemma NoEndTagBetween(s: string, lo: nat, hi: nat)
    requires lo <= hi <= |s|
    requires forall k | lo <= k < hi :: TagAt(s, k, EndWord).None?
    ensures !ContainsTag(s[lo..hi], EndWord)
  {
    var body := s[lo..hi];
    if ContainsTag(body, EndWord) {
      var i, e :| 0 <= i <= e <= |body| && IsTag(body[i..e], EndWord);
      TagIsLong(body[i..e], EndWord);
      assert lo + i < hi;
      TagWords();
      SliceOfSlice(s, lo, hi, i, e);
      TagAtComplete(s, lo + i, lo + e, EndWord);
      assert false;
    }
  }

  lemma SliceOfSlice<T>(s: seq<T>, lo: nat, hi: nat, i: nat, e: nat)
    requires lo <= hi <= |s| && i <= e <= hi - lo
    ensures s[lo..hi][i..e] == s[lo + i..lo + e]
  {
    forall k | 0 <= k < e - i ensures s[lo..hi][i..e][k] == s[lo + i..lo + e][k] {
      assert s[lo..hi][i..e][k] == s[lo..hi][i + k] == s[lo + i + k];
    }
  }

  /** Before a `{`, a stretch that holds no tag has no tag starting in it either. */
  lemma NoTagStartsIn(s: string, lo: nat, hi: nat, word: string)
    requires IsTagWord(word) && lo <= hi < |s| && s[hi] == '{' && !ContainsTag(s[lo..hi], word)
    ensures forall k | lo <= k < hi :: TagAt(s, k, word).None?
  {
    forall k | lo <= k < hi ensures TagAt(s, k, word).None? {
      if TagAt(s, k, word).Some? {
        var x := TagAt(s, k, word).value;
        if x <= hi {
          TagAtSound(s, k, x, word);
          SliceOfSlice(s, lo, hi, k - lo, x - lo);
          assert false;
        } else {
          TagHasNoInnerBrace(s, k, x, word, hi);
        }
      }
    }
  }

  /** The regular expression matches exactly when a start tag is followed by an end tag. */
  lemma {:induction false} ExtractSchemaFound(s: string)
    ensures ExtractSchema(s).Some? <==> HasSchemaBlock(s)
  {
    TagWords();
    match FindSchema(s)
    case Some(sp) =>
      TagAtSound(s, sp.start, sp.bodyStart, StartWord);
      TagAtSound(s, sp.bodyEnd, sp.stop, EndWord);
      assert IsTag(s[sp.start..sp.bodyStart], StartWord) && IsTag(s[sp.bodyEnd..sp.stop], EndWord);
    case None =>
      if HasSchemaBlock(s) {
        var i, e, j, f :| 0 <= i <= e <= j <= f <= |s| && IsTag(s[i..e], StartWord) && IsTag(s[j..f], EndWord);
        TagAtComplete(s, i, e, StartWord);
        TagAtComplete(s, j, f, EndWord);
        assert false;
      }
  }

  /**
   * The body of `prefix + start + body + end + suffix` is `body` when `prefix`
   * holds no start tag and `body` no end tag; `suffix` may hold anything,
   * further schema blocks included.
   */
  lemma {:induction false} ExtractSchemaRoundTrip(prefix: string, start: string, body: string, end: string, suffix: string)
    requires IsTag(start, StartWord) && IsTag(end, EndWord)
    requires !ContainsTag(prefix, StartWord) && !ContainsTag(body, EndWord)
    ensures ExtractSchema(prefix + start + body + end + suffix) == Some(body)
  {
    ConcatPieces(prefix, start, body, end, suffix);
    var p := |prefix|;
    var e1 := p + |start|;
    var j := e1 + |body|;
    ExtractSchemaOfPieces(prefix + start + body + end + suffix, p, e1, j, j + |end|);
  }

  /** The round trip, on positions: the pieces of `s` between `p`, `e1`, `j` and `f`. */
  lemma ExtractSchemaOfPieces(s: string, p: nat, e1: nat, j: nat, f: nat)
    requires p <= e1 <= j <= f <= |s|
    requires IsTag(s[p..e1], StartWord) && IsTag(s[j..f], EndWord)
    requires !ContainsTag(s[0..p], StartWord) && !ContainsTag(s[e1..j], EndWord)
    ensures ExtractSchema(s) == Some(s[e1..j])
  {
    TagWords();
    TagAtOwnStart(s[p..e1], StartWord);
    TagAtOwnStart(s[j..f], EndWord);
    assert s[p] == s[p..e1][0] && s[j] == s[j..f][0];
    TagAtSlice(s, p, e1, StartWord);
    TagAtSlice(s, j, f, EndWord);
    NoTagStartsIn(s, 0, p, StartWord);
    NoTagStartsIn(s, e1, j, EndWord);
    ExtractSchemaAt(s, p, e1, j, f);
  }

  /** The pieces of a concatenation of five strings, as slices of it. */
  lemma ConcatPieces(prefix: string, start: string, body: string, end: string, suffix: string)
    ensures var s := prefix + start + body + end + suffix;
      var p := |prefix|;
      var e1 := p + |start|;
      var j := e1 + |body|;
      var f := j + |end|;
      && |s| == f + |suffix|
      && s[0..p] == prefix && s[p..e1] == start && s[e1..j] == body && s[j..f] == end
  {
  }

  /** The schema body lies between a first start tag and the nearest end tag after it. */
  lemma ExtractSchemaAt(s: string, p: nat, e1: nat, j: nat, f: nat)
    requires p <= e1 <= j <= f <= |s|
    requires TagAt(s, p, StartWord) == Some(e1) && TagAt(s, j, EndWord) == Some(f)
    requires forall k | 0 <= k < p :: TagAt(s, k, StartWord).None?
    requires forall k | e1 <= k < j :: TagAt(s, k, EndWord).None?
    ensures ExtractSchema(s) == Some(s[e1..j])
  {
    var sp := FindSchema(s).value;
    assert sp.start == p;
    assert sp.bodyEnd == j;
  }
}
