/**
 * The string operations of Rust's `str` that the services rely on, over
 * `seq<char>`: `lines`, `trim`, `trim_start_matches`, `trim_end_matches`,
 * `split_whitespace`, `split_once`, `find`, `contains`, `replace`,
 * `starts_with`, `ends_with`, `join` and ASCII lower-casing.
 */
module Text {
  import opened Wrappers

  /** `char::is_whitespace`: the Unicode White_Space property. */
  predicate IsWhitespace(c: char) {
    c == ' ' || ('\t' <= c <= '\r') || c == '\U{85}' || c == '\U{A0}' || c == '\U{1680}'
    || ('\U{2000}' <= c <= '\U{200A}') || c == '\U{2028}' || c == '\U{2029}'
    || c == '\U{202F}' || c == '\U{205F}' || c == '\U{3000}'
  }

  predicate IsNewline(c: char) {
    c == '\n'
  }

  predicate NoWhitespace(s: string) {
    forall i :: 0 <= i < |s| ==> !IsWhitespace(s[i])
  }

  /** `starts_with` on a string pattern. */
  predicate StartsWith(s: string, prefix: string) {
    prefix <= s
  }

  /** A sequence starts every sequence it begins. */
  lemma PrefixOfConcat<T>(a: seq<T>, b: seq<T>)
    ensures a <= a + b
  {
    assert (a + b)[..|a|] == a;
  }

  /** `ends_with` on a string pattern. */
  predicate EndsWith(s: string, suffix: string) {
    |suffix| <= |s| && s[|s| - |suffix|..] == suffix
  }

  /** `pat` occurs in `s` starting at index `j`. */
  predicate OccursAt(s: string, pat: string, j: int) {
    0 <= j && j + |pat| <= |s| && s[j..j + |pat|] == pat
  }

  /** The index of the first character satisfying `p`, or `|s|` if there is none. */
  function FirstIndex(s: string, p: char -> bool): (n: nat)
    ensures n <= |s|
    ensures forall i :: 0 <= i < n ==> !p(s[i])
    ensures n < |s| ==> p(s[n])
  {
    if s == [] then 0
    else if p(s[0]) then 0
    else 1 + FirstIndex(s[1..], p)
  }

  /** `trim_start_matches` with a character predicate. */
  function TrimStartBy(s: string, p: char -> bool): (r: string)
    ensures |r| <= |s| && r == s[|s| - |r|..]
    ensures forall i :: 0 <= i < |s| - |r| ==> p(s[i])
    ensures r == [] || !p(r[0])
  {
    if s != [] && p(s[0]) then TrimStartBy(s[1..], p) else s
  }

  /** `trim_end_matches` with a character predicate. */
  function TrimEndBy(s: string, p: char -> bool): (r: string)
    ensures |r| <= |s| && r == s[..|r|]
    ensures forall i :: |r| <= i < |s| ==> p(s[i])
    ensures r == [] || !p(r[|r| - 1])
  {
    if s != [] && p(s[|s| - 1]) then TrimEndBy(s[..|s| - 1], p) else s
  }

  /** `r` is `s` stripped at both ends: a slice with only whitespace outside it, and none at its ends. */
  predicate TrimmedFrom(s: string, r: string) {
    (exists i, j :: 0 <= i <= j <= |s| && r == s[i..j]
                    && (forall k :: 0 <= k < i ==> IsWhitespace(s[k]))
                    && (forall k :: j <= k < |s| ==> IsWhitespace(s[k])))
    && (r == [] || (!IsWhitespace(r[0]) && !IsWhitespace(r[|r| - 1])))
  }

  /** `str::trim`: strips leading and trailing whitespace. */
  function Trim(s: string): (r: string)
    ensures TrimmedFrom(s, r)
  {
    TrimEnds(s);
    TrimEndBy(TrimStartBy(s, IsWhitespace), IsWhitespace)
  }

  /** Stripping the start, then the end, trims. */
  lemma TrimEnds(s: string)
    ensures TrimmedFrom(s, TrimEndBy(TrimStartBy(s, IsWhitespace), IsWhitespace))
  {
    var t := TrimStartBy(s, IsWhitespace);
    var r := TrimEndBy(t, IsWhitespace);
    assert r == [] || (!IsWhitespace(r[0]) && !IsWhitespace(r[|r| - 1])) by {
      if r != [] {
        assert r[0] == t[0];
      }
    }
    TrimBounds(s, t, r);
  }

  /** Stripping both ends of `s` leaves a slice of it with only whitespace outside. */
  lemma TrimBounds(s: string, t: string, r: string)
    requires |t| <= |s| && t == s[|s| - |t|..] && forall k :: 0 <= k < |s| - |t| ==> IsWhitespace(s[k])
    requires |r| <= |t| && r == t[..|r|] && forall k :: |r| <= k < |t| ==> IsWhitespace(t[k])
    ensures exists i, j :: 0 <= i <= j <= |s| && r == s[i..j]
                           && (forall k :: 0 <= k < i ==> IsWhitespace(s[k]))
                           && (forall k :: j <= k < |s| ==> IsWhitespace(s[k]))
  {
    var i, j := |s| - |t|, |s| - |t| + |r|;
    assert forall k :: j <= k < |s| ==> s[k] == t[k - i];
    assert r == s[i..j];
  }

  /** The length of the run of non-whitespace characters that starts `t`. */
  function WordEnd(t: string): (n: nat)
    ensures n <= |t|
    ensures NoWhitespace(t[..n])
    ensures n < |t| ==> IsWhitespace(t[n])
    ensures n == 0 <==> t == [] || IsWhitespace(t[0])
  {
    if t == [] || IsWhitespace(t[0]) then 0
    else
      var m := WordEnd(t[1..]);
      assert t[..m + 1] == [t[0]] + t[1..][..m];
      1 + m
  }

  /** `str::split_whitespace`: the maximal runs of non-whitespace characters, in order. */
  function SplitWhitespace(s: string): (parts: seq<string>)
    ensures forall i :: 0 <= i < |parts| ==> parts[i] != [] && NoWhitespace(parts[i])
    decreases |s|
  {
    var t := TrimStartBy(s, IsWhitespace);
    if t == [] then []
    else
      var n := WordEnd(t);
      [t[..n]] + SplitWhitespace(t[n..])
  }

  /** Strips one trailing carriage return. */
  function StripCr(s: string): (r: string)
    ensures r == s || (s == r + ['\r'])
  {
    if s != [] && s[|s| - 1] == '\r' then s[..|s| - 1] else s
  }

  /**
   * `str::lines`: splits at "\n" (dropping a "\r" right before it); the final
   * line may lack a terminator, and a trailing "\n" does not start a new line.
   */
  function Lines(s: string): (ls: seq<string>)
    ensures forall i :: 0 <= i < |ls| ==> '\n' !in ls[i]
    ensures |ls| <= |s|
    decreases |s|
  {
    if s == [] then []
    else
      var n := FirstIndex(s, IsNewline);
      if n == |s| then [s]
      else [StripCr(s[..n])] + Lines(s[n + 1..])
  }

  /** The first index at or after `from` where `pat` occurs. */
  function FindFrom(s: string, pat: string, from: nat): (r: Option<nat>)
    ensures r.Some? ==> from <= r.value && OccursAt(s, pat, r.value)
    ensures forall j :: from <= j < (if r.Some? then r.value else |s| + 1) ==> !OccursAt(s, pat, j)
    decreases |s| + 1 - from
  {
    if from + |pat| > |s| then None
    else if s[from..from + |pat|] == pat then Some(from)
    else FindFrom(s, pat, from + 1)
  }

  /** `str::find` with a string pattern: the index of the first occurrence. */
  function Find(s: string, pat: string): (r: Option<nat>)
    ensures r.Some? ==> OccursAt(s, pat, r.value)
    ensures forall j :: 0 <= j < (if r.Some? then r.value else |s| + 1) ==> !OccursAt(s, pat, j)
  {
    FindFrom(s, pat, 0)
  }

  /** `str::contains` with a string pattern. */
  predicate Contains(s: string, pat: string) {
    Find(s, pat).Some?
  }

  /** `str::replace`: every non-overlapping occurrence of `pat`, left to right, becomes `rep`. */
  function Replace(s: string, pat: string, rep: string): string
    decreases |s|
  {
    if pat == [] then
      // Rust inserts `rep` before every character and at the end
      if s == [] then rep else rep + [s[0]] + Replace(s[1..], pat, rep)
    else if |s| < |pat| then s
    else if s[..|pat|] == pat then rep + Replace(s[|pat|..], pat, rep)
    else [s[0]] + Replace(s[1..], pat, rep)
  }

  /** `[&str]::join`. */
  function Join(parts: seq<string>, sep: string): string {
    if parts == [] then []
    else if |parts| == 1 then parts[0]
    else parts[0] + sep + Join(parts[1..], sep)
  }

  /** The index of the first `c` in `s`, or `|s|` if there is none. */
  function CharIndex(s: string, c: char): (n: nat)
    ensures n <= |s|
    ensures c !in s[..n]
    ensures n < |s| ==> s[n] == c
  {
    if s == [] || s[0] == c then 0
    else
      var m := CharIndex(s[1..], c);
      assert s[..m + 1] == [s[0]] + s[1..][..m];
      1 + m
  }

  /** `str::split_once` with a character pattern: the text around the first `c`. */
  function SplitOnce(s: string, c: char): (r: Option<(string, string)>)
    ensures r.None? <==> c !in s
    ensures r.Some? ==> s == r.value.0 + [c] + r.value.1 && c !in r.value.0
  {
    var n := CharIndex(s, c);
    if n == |s| then
      assert s[..n] == s;
      None
    else
      assert s == s[..n] + [c] + s[n + 1..];
      Some((s[..n], s[n + 1..]))
  }

  /** `char::to_ascii_lowercase`. */
  function LowerChar(c: char): char {
    if 'A' <= c <= 'Z' then (c as int + 32) as char else c
  }

  /** Lower-casing of a string, restricted to ASCII letters. */
  function ToLower(s: string): (r: string)
    ensures |r| == |s|
    ensures forall i :: 0 <= i < |s| ==> r[i] == LowerChar(s[i])
  {
    seq(|s|, i requires 0 <= i < |s| => LowerChar(s[i]))
  }

  /** Lower-casing a lower-cased string changes nothing, and leaves no ASCII capital. */
  lemma ToLowerIdempotent(s: string)
    ensures ToLower(ToLower(s)) == ToLower(s)
    ensures forall i :: 0 <= i < |s| ==> !('A' <= ToLower(s)[i] <= 'Z')
  {
  }

  /** `str::eq_ignore_ascii_case`. */
  predicate EqIgnoreAsciiCase(a: string, b: string) {
    ToLower(a) == ToLower(b)
  }

  /** The ordering of Rust's `String`: lexicographic by code point, a prefix first. */
  predicate LexLe(a: string, b: string)
    decreases |a|
  {
    a == [] || (b != [] && (a[0] < b[0] || (a[0] == b[0] && LexLe(a[1..], b[1..]))))
  }

  // ---------------------------------------------------------------------------
  // Lemmas
  // ---------------------------------------------------------------------------

  /** A string that contains no `pat` is left alone by `replace`. */
  lemma {:induction false} ReplaceAbsent(s: string, pat: string, rep: string)
    requires pat != []
    requires forall j :: 0 <= j ==> !OccursAt(s, pat, j)
    ensures Replace(s, pat, rep) == s
    decreases |s|
  {
    if |s| >= |pat| {
      assert !OccursAt(s, pat, 0);
      forall j | 0 <= j ensures !OccursAt(s[1..], pat, j) {
        assert !OccursAt(s, pat, j + 1);
      }
      ReplaceAbsent(s[1..], pat, rep);
    }
  }

  /** A string that does not contain `pat` is left alone by `replace`. */
  lemma ReplaceMissing(s: string, pat: string, rep: string)
    requires pat != [] && !Contains(s, pat)
    ensures Replace(s, pat, rep) == s
  {
    ReplaceAbsent(s, pat, rep);
  }

  /** A pattern missing from a text is missing from the text without its first character. */
  lemma MissingAfterHead(c: char, rest: string, pat: string)
    requires !Contains([c] + rest, pat)
    ensures !Contains(rest, pat)
  {
    if Find(rest, pat).Some? {
      var j := Find(rest, pat).value;
      assert ([c] + rest)[j + 1..j + 1 + |pat|] == rest[j..j + |pat|];
      assert OccursAt([c] + rest, pat, j + 1);
    }
  }

  /** `replace` with a one-character pattern rewrites that character everywhere and nothing else. */
  lemma {:induction false} ReplaceCharAppend(s: string, t: string, c: char, rep: string)
    ensures Replace(s + t, [c], rep) == Replace(s, [c], rep) + Replace(t, [c], rep)
    decreases |s|
  {
    if s == [] {
      assert s + t == t;
    } else {
      assert (s + t)[1..] == s[1..] + t;
      assert (s + t)[..1] == s[..1];
      ReplaceCharAppend(s[1..], t, c, rep);
    }
  }

  /**
   * `replace` of one character leaves a text without it alone, and never
   * shortens a text when the replacement is not empty.
   */
  lemma {:induction false} ReplaceCharLength(s: string, c: char, rep: string)
    ensures c !in s ==> Replace(s, [c], rep) == s
    ensures rep != [] ==> |s| <= |Replace(s, [c], rep)|
    decreases |s|
  {
    if s != [] {
      ReplaceCharLength(s[1..], c, rep);
      assert s == [s[0]] + s[1..];
    }
  }

  /** The character `c` is absent from `replace(s, c, rep)` when it is absent from `rep`. */
  lemma {:induction false} ReplaceCharRemoves(s: string, c: char, rep: string)
    requires c !in rep
    ensures c !in Replace(s, [c], rep)
    decreases |s|
  {
    if s != [] {
      ReplaceCharRemoves(s[1..], c, rep);
    }
  }

  /** `lines` of a first line, a newline and the rest. */
  lemma LinesCons(first: string, rest: string)
    requires '\n' !in first
    ensures Lines(first + "\n" + rest) == [StripCr(first)] + Lines(rest)
  {
    var s := first + "\n" + rest;
    assert IsNewline(s[|first|]);
    forall i | 0 <= i < |first| ensures !IsNewline(s[i]) {
      assert s[i] == first[i];
    }
    var n := FirstIndex(s, IsNewline);
    assert n == |first|;
    assert s[..n] == first;
    assert s[n + 1..] == rest;
  }

  /** `lines` of text without a newline is that text as one line (none if empty). */
  lemma LinesSingle(s: string)
    requires '\n' !in s
    ensures Lines(s) == if s == [] then [] else [s]
  {
    forall i | 0 <= i < |s| ensures !IsNewline(s[i]) {
      assert s[i] in s;
    }
  }

  /** The word that starts `word + rest` is `word` when `rest` starts with whitespace or is empty. */
  lemma {:induction false} WordEndOf(word: string, rest: string)
    requires NoWhitespace(word)
    requires rest == [] || IsWhitespace(rest[0])
    ensures WordEnd(word + rest) == |word|
    decreases |word|
  {
    if word == [] {
      assert word + rest == rest;
    } else {
      assert (word + rest)[1..] == word[1..] + rest;
      WordEndOf(word[1..], rest);
    }
  }

  /** `split_whitespace` after leading whitespace and a word, with the rest of the line. */
  lemma {:induction false} SplitWhitespaceCons(word: string, sepr: string, rest: string)
    requires word != [] && NoWhitespace(word)
    requires sepr != [] && forall i :: 0 <= i < |sepr| ==> IsWhitespace(sepr[i])
    ensures SplitWhitespace(word + sepr + rest) == [word] + SplitWhitespace(sepr + rest)
  {
    var s := word + sepr + rest;
    var t := TrimStartBy(s, IsWhitespace);
    assert !IsWhitespace(s[0]);
    assert t == s;
    assert s == word + (sepr + rest);
    WordEndOf(word, sepr + rest);
    var n := WordEnd(t);
    assert t[..n] == word;
    assert t[n..] == sepr + rest;
  }

  /** Leading whitespace does not change `split_whitespace`. */
  lemma {:induction false} SplitWhitespaceSkip(sepr: string, rest: string)
    requires forall i :: 0 <= i < |sepr| ==> IsWhitespace(sepr[i])
    ensures SplitWhitespace(sepr + rest) == SplitWhitespace(rest)
    decreases |sepr|
  {
    if sepr != [] {
      assert (sepr + rest)[1..] == sepr[1..] + rest;
      SplitWhitespaceSkip(sepr[1..], rest);
    } else {
      assert sepr + rest == rest;
    }
  }

  /** `split_whitespace` of a single word. */
  lemma SplitWhitespaceWord(word: string)
    requires word != [] && NoWhitespace(word)
    ensures SplitWhitespace(word) == [word]
  {
    assert !IsWhitespace(word[0]);
    assert TrimStartBy(word, IsWhitespace) == word;
    WordEndOf(word, []);
    assert word + [] == word;
    assert word[..|word|] == word && word[|word|..] == [];
    assert SplitWhitespace(word[|word|..]) == [];
  }

  /** `split_whitespace` undoes `join` with a single space, for words without whitespace. */
  lemma {:induction false} SplitWhitespaceJoin(words: seq<string>)
    requires forall i :: 0 <= i < |words| ==> words[i] != [] && NoWhitespace(words[i])
    ensures SplitWhitespace(Join(words, " ")) == words
    decreases |words|
  {
    if words == [] {
    } else if |words| == 1 {
      SplitWhitespaceWord(words[0]);
    } else {
      var rest := Join(words[1..], " ");
      assert Join(words, " ") == words[0] + " " + rest;
      SplitWhitespaceCons(words[0], " ", rest);
      SplitWhitespaceSkip(" ", rest);
      SplitWhitespaceJoin(words[1..]);
      PrependEq(SplitWhitespace(Join(words, " ")), SplitWhitespace(" " + rest), SplitWhitespace(rest), words);
    }
  }

  /** A step of equational reasoning on sequences, kept apart from the string facts around it. */
  lemma PrependEq<T>(a: seq<T>, b: seq<T>, c: seq<T>, xs: seq<T>)
    requires xs != [] && a == [xs[0]] + b && b == c && c == xs[1..]
    ensures a == xs
  {
  }

  /** Words joined by single spaces: no newline, and no whitespace at either end. */
  lemma {:induction false} JoinWordsShape(words: seq<string>)
    requires |words| >= 1
    requires forall i :: 0 <= i < |words| ==> words[i] != [] && NoWhitespace(words[i])
    ensures var j := Join(words, " "); j != [] && !IsWhitespace(j[0]) && !IsWhitespace(j[|j| - 1])
    ensures '\n' !in Join(words, " ")
    decreases |words|
  {
    var w := words[0];
    assert '\n' !in w by {
      forall k | 0 <= k < |w| ensures w[k] != '\n' {
        assert !IsWhitespace(w[k]);
      }
    }
    if |words| > 1 {
      JoinWordsShape(words[1..]);
      var rest := Join(words[1..], " ");
      assert Join(words, " ") == w + " " + rest;
      assert Join(words, " ")[0] == w[0];
      assert Join(words, " ")[|Join(words, " ")| - 1] == rest[|rest| - 1];
    }
  }

  /** Lines each ended by "\n". */
  function LinesText(ls: seq<string>): string {
    if ls == [] then [] else ls[0] + "\n" + LinesText(ls[1..])
  }

  /** `lines` reads back lines written one per "\n", when none holds a newline or ends in "\r". */
  lemma {:induction false} LinesOfText(ls: seq<string>)
    requires forall i :: 0 <= i < |ls| ==> '\n' !in ls[i] && StripCr(ls[i]) == ls[i]
    ensures Lines(LinesText(ls)) == ls
    decreases |ls|
  {
    if ls != [] {
      LinesCons(ls[0], LinesText(ls[1..]));
      LinesOfText(ls[1..]);
    }
  }

  /** The first `c` of `key + [c] + value` is the one after `key`, when `key` has none. */
  lemma {:induction false} CharIndexOf(key: string, c: char, value: string)
    requires c !in key
    ensures CharIndex(key + [c] + value, c) == |key|
    decreases |key|
  {
    if key != [] {
      assert (key + [c] + value)[1..] == key[1..] + [c] + value;
      assert key[0] != c;
      CharIndexOf(key[1..], c, value);
    }
  }

  /** `split_once` at a character the part before it does not contain. */
  lemma SplitOnceAt(key: string, value: string, c: char)
    requires c !in key
    ensures SplitOnce(key + [c] + value, c) == Some((key, value))
  {
    var s := key + [c] + value;
    CharIndexOf(key, c, value);
    assert s[..|key|] == key;
    assert s[|key| + 1..] == value;
  }

  /** Text with no whitespace at either end is its own `trim`. */
  lemma TrimUnchanged(s: string)
    requires s != [] && !IsWhitespace(s[0]) && !IsWhitespace(s[|s| - 1])
    ensures Trim(s) == s
  {
    assert TrimStartBy(s, IsWhitespace) == s;
    assert TrimEndBy(s, IsWhitespace) == s;
  }

  /** A pattern whose first character a prefix lacks is found right after that prefix. */
  lemma FindAfterPrefix(pre: string, pat: string, tail: string)
    requires pat != [] && pat[0] !in pre
    ensures Find(pre + pat + tail, pat) == Some(|pre|)
  {
    var s := pre + pat + tail;
    assert s[|pre|..|pre| + |pat|] == pat;
    forall k | 0 <= k < |pre| ensures !OccursAt(s, pat, k) {
      assert s[k] == pre[k];
      if k + |pat| <= |s| {
        assert s[k..k + |pat|][0] == s[k];
      }
    }
    FindAt(s, pat, |pre|);
  }

  /** `find` at an occurrence with no earlier one. */
  lemma FindAt(s: string, pat: string, j: nat)
    requires OccursAt(s, pat, j)
    requires forall k :: 0 <= k < j ==> !OccursAt(s, pat, k)
    ensures Find(s, pat) == Some(j)
  {
  }

  /** Any two strings are ordered one way or the other. */
  lemma {:induction false} LexLeTotal(a: string, b: string)
    ensures LexLe(a, b) || LexLe(b, a)
    decreases |a|
  {
    if a != [] && b != [] && a[0] == b[0] {
      LexLeTotal(a[1..], b[1..]);
    }
  }

  /** The string ordering is transitive. */
  lemma {:induction false} LexLeTrans(a: string, b: string, c: string)
    requires LexLe(a, b) && LexLe(b, c)
    ensures LexLe(a, c)
    decreases |a|
  {
    if a != [] && b != [] && c != [] && a[0] == b[0] && b[0] == c[0] {
      LexLeTrans(a[1..], b[1..], c[1..]);
    }
  }

  /** Strings ordered both ways are equal. */
  lemma {:induction false} LexLeAntisymmetric(a: string, b: string)
    requires LexLe(a, b) && LexLe(b, a)
    ensures a == b
    decreases |a|
  {
    if a != [] {
      LexLeAntisymmetric(a[1..], b[1..]);
      assert a == [a[0]] + a[1..] && b == [b[0]] + b[1..];
    }
  }
}
