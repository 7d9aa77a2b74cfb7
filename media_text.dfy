/**
 * The string helpers of the media service (src-tauri/src/services/media_service.rs):
 * quoting a device path for the device shell, quoting a value for a
 * MediaStore `--where` clause, turning a file name into a safe cache name,
 * and reducing a device path to its part below the storage root.
 */
module MediaText {
  import opened Wrappers
  import opened Text

  // ---------------------------------------------------------------------------
  // Shell quoting
  // ---------------------------------------------------------------------------

  /** What every `'` inside the quotes becomes: close the quotes, an escaped quote, reopen. */
  const QuoteEscape: string := "'\\''"

  /** `quote_remote_path`: the path in single quotes, each `'` in it written as `'\''`. */
  function QuoteRemotePath(path: string): (q: string)
    ensures |q| >= 2 && q[0] == '\'' && q[|q| - 1] == '\''
  {
    "'" + Replace(path, "'", QuoteEscape) + "'"
  }

  function Prepend(c: char, r: Option<string>): Option<string> {
    match r
    case None => None
    case Some(s) => Some([c] + s)
  }

  /**
   * How a POSIX shell reads one word made of single-quoted runs and
   * backslash-escaped characters (section 2.2 of the POSIX.1-2017 Shell Command
   * Language): inside single quotes every character stands for itself up to
   * the closing quote; outside, a backslash makes the next character literal.
   * An unterminated quote, a trailing backslash and any other unquoted
   * character (which the shell might expand or split on) give None.
   */
  function ShellUnquote(w: string, quoted: bool): Option<string>
    decreases |w|
  {
    if w == [] then (if quoted then None else Some([]))
    else if quoted then
      if w[0] == '\'' then ShellUnquote(w[1..], false) else Prepend(w[0], ShellUnquote(w[1..], true))
    else if w[0] == '\'' then ShellUnquote(w[1..], true)
    else if w[0] == '\\' && |w| >= 2 && w[1] != '\n' then Prepend(w[1], ShellUnquote(w[2..], false))
    else None
  }

  /** Inside the quotes, `'\''` reads as one quote and leaves the quotes open. */
  lemma UnquoteEscapeStep(t: string, tail: string)
    requires ShellUnquote(t, true) == Some(tail)
    ensures ShellUnquote(QuoteEscape + t, true) == Some("'" + tail)
  {
    var w := QuoteEscape + t;
    assert w[0] == '\'' && w[1..] == "\\''" + t;
    var w1 := w[1..];
    assert w1[0] == '\\' && w1[1] == '\'' && w1[2..] == "'" + t;
    var w2 := w1[2..];
    assert w2[0] == '\'' && w2[1..] == t;
    assert ShellUnquote(w2, false) == Some(tail);
    assert ShellUnquote(w1, false) == Prepend('\'', Some(tail));
  }

  /** Inside the quotes, any character but a quote stands for itself. */
  lemma UnquotePlainStep(c: char, t: string, tail: string)
    requires c != '\'' && ShellUnquote(t, true) == Some(tail)
    ensures ShellUnquote([c] + t, true) == Some([c] + tail)
  {
    assert ([c] + t)[1..] == t;
  }

  /** Inside the quotes, the escaped text followed by the closing quote reads back as the text. */
  lemma {:induction false} UnquoteEscaped(p: string)
    ensures ShellUnquote(Replace(p, "'", QuoteEscape) + "'", true) == Some(p)
    decreases |p|
  {
    var r := Replace(p, "'", QuoteEscape);
    if p == [] {
      assert r + "'" == "'";
      assert ShellUnquote("'", true) == ShellUnquote([], false);
    } else {
      var r' := Replace(p[1..], "'", QuoteEscape);
      UnquoteEscaped(p[1..]);
      assert [p[0]] + p[1..] == p;
      if p[0] == '\'' {
        assert p[..1] == "'";
        assert r + "'" == QuoteEscape + (r' + "'");
        UnquoteEscapeStep(r' + "'", p[1..]);
      } else {
        assert p[..1] != "'";
        assert r + "'" == [p[0]] + (r' + "'");
        UnquotePlainStep(p[0], r' + "'", p[1..]);
      }
    }
  }

  /** The shell on the device reads the quoted path back as exactly the path. */
  lemma QuoteRemotePathRoundTrip(path: string)
    ensures ShellUnquote(QuoteRemotePath(path), false) == Some(path)
  {
    var r := Replace(path, "'", QuoteEscape);
    UnquoteEscaped(path);
    assert QuoteRemotePath(path)[1..] == r + "'";
  }

  // ---------------------------------------------------------------------------
  // SQL quoting
  // ---------------------------------------------------------------------------

  /** `quote_sql_value`: every `'` doubled, so a value without quotes is left as it is. */
  function QuoteSqlValue(value: string): (q: string)
    ensures '\'' !in value ==> q == value
    ensures |value| <= |q|
  {
    ReplaceCharLength(value, '\'', "''");
    Replace(value, "'", "''")
  }

  /**
   * The text an SQL string literal stands for, given what lies between its
   * quotes: `''` is one quote, and a lone quote would end the literal early (None).
   */
  function SqlUnquote(s: string): Option<string>
    decreases |s|
  {
    if s == [] then Some([])
    else if s[0] == '\'' then
      if |s| >= 2 && s[1] == '\'' then Prepend('\'', SqlUnquote(s[2..])) else None
    else Prepend(s[0], SqlUnquote(s[1..]))
  }

  /** Between quotes, the quoted value stands for exactly the value: no quote ends the literal early. */
  lemma {:induction false} QuoteSqlValueRoundTrip(value: string)
    ensures SqlUnquote(QuoteSqlValue(value)) == Some(value)
    decreases |value|
  {
    if value != [] {
      var r' := QuoteSqlValue(value[1..]);
      QuoteSqlValueRoundTrip(value[1..]);
      assert [value[0]] + value[1..] == value;
      if value[0] == '\'' {
        assert value[..1] == "'";
        var w := QuoteSqlValue(value);
        assert w == "''" + r';
        assert w[0] == '\'' && w[1] == '\'' && w[2..] == r';
      } else {
        assert value[..1] != "'";
        var w := QuoteSqlValue(value);
        assert w == [value[0]] + r';
        assert w[0] == value[0] && w[1..] == r';
      }
    }
  }

  // ---------------------------------------------------------------------------
  // Cache file names
  // ---------------------------------------------------------------------------

  /** `char::is_alphanumeric`, restricted to ASCII. */
  predicate IsAlphanumeric(c: char) {
    'a' <= c <= 'z' || 'A' <= c <= 'Z' || '0' <= c <= '9'
  }

  /** The characters `sanitize_filename` keeps. */
  predicate SafeChar(c: char) {
    IsAlphanumeric(c) || c == '.' || c == '-' || c == '_'
  }

  function SanitizeChar(c: char): char {
    if SafeChar(c) then c else '_'
  }

  /** `sanitize_filename`: every character that is not safe becomes `_`. */
  function SanitizeFilename(name: string): (r: string)
    ensures |r| == |name|
    ensures forall i :: 0 <= i < |r| ==> SafeChar(r[i])
    ensures forall i :: 0 <= i < |r| ==> (r[i] == name[i] <==> SafeChar(name[i]) || name[i] == '_')
    ensures forall i :: 0 <= i < |r| ==> r[i] != name[i] ==> r[i] == '_'
  {
    seq(|name|, i requires 0 <= i < |name| => SanitizeChar(name[i]))
  }

  /** A name already made of safe characters is its own sanitized form. */
  lemma SanitizeKeepsSafe(name: string)
    requires forall i :: 0 <= i < |name| ==> SafeChar(name[i])
    ensures SanitizeFilename(name) == name
  {
  }

  /** Sanitizing twice is sanitizing once. */
  lemma SanitizeIdempotent(name: string)
    ensures SanitizeFilename(SanitizeFilename(name)) == SanitizeFilename(name)
  {
    SanitizeKeepsSafe(SanitizeFilename(name));
  }

  /** The unit test's three names. */
  lemma SanitizeExamples()
    ensures SanitizeFilename("test.jpg") == "test.jpg"
    ensures SanitizeFilename("my file (1).jpg") == "my_file__1_.jpg"
    ensures SanitizeFilename("photo-2024.png") == "photo-2024.png"
  {
    SanitizeKeepsSafe("test.jpg");
    SanitizeKeepsSafe("photo-2024.png");
  }

  // ---------------------------------------------------------------------------
  // Paths below the storage root
  // ---------------------------------------------------------------------------

  const StorageRoot: string := "/storage/emulated/0/"
  const SdcardRoot: string := "/sdcard/"

  predicate IsSlash(c: char) {
    c == '/'
  }

  /**
   * `normalize_path`: every `/storage/emulated/0/`, then every `/sdcard/`,
   * becomes `/`, and leading slashes are dropped.
   */
  function NormalizePath(path: string): (r: string)
    ensures r == [] || r[0] != '/'
  {
    TrimStartBy(Replace(Replace(path, StorageRoot, "/"), SdcardRoot, "/"), IsSlash)
  }

  /** One differing character rules out an occurrence. */
  lemma MismatchAt(s: string, pat: string, j: nat, k: nat)
    requires k < |pat| && j + k < |s| && s[j + k] != pat[k]
    ensures !OccursAt(s, pat, j)
  {
    if j + |pat| <= |s| {
      assert s[j..j + |pat|][k] == s[j + k];
    }
  }

  /** `replace` of a text that starts with the pattern. */
  lemma ReplaceLeading(pat: string, rest: string, rep: string)
    requires pat != []
    ensures Replace(pat + rest, pat, rep) == rep + Replace(rest, pat, rep)
  {
    assert (pat + rest)[..|pat|] == pat;
    assert (pat + rest)[|pat|..] == rest;
  }

  /**
   * The part of a path below a storage root: it does not start with `/`, and
   * neither root name occurs again once the root's final `/` is put back in
   * front of it.
   */
  predicate BelowRoot(rest: string) {
    (rest == [] || rest[0] != '/') && !Contains("/" + rest, SdcardRoot) && !Contains("/" + rest, StorageRoot)
  }

  /** `trim_start_matches('/')` of one slash and a text not starting with one. */
  lemma TrimOneSlash(rest: string)
    requires rest == [] || rest[0] != '/'
    ensures TrimStartBy("/" + rest, IsSlash) == rest
  {
    assert ("/" + rest)[1..] == rest;
  }

  /** `/storage/emulated/0/` occurs in `/sdcard/` and a text only where it occurs in "/" and that text. */
  lemma StorageAfterSdcard(rest: string)
    requires !Contains("/" + rest, StorageRoot)
    ensures !Contains(SdcardRoot + rest, StorageRoot)
  {
    var s := SdcardRoot + rest;
    var t := "/" + rest;
    assert s[7..] == t;
    forall j | 0 <= j ensures !OccursAt(s, StorageRoot, j) {
      if j + |StorageRoot| <= |s| {
        if j >= 7 {
          assert s[j..j + |StorageRoot|] == t[j - 7..j - 7 + |StorageRoot|];
          assert !OccursAt(t, StorageRoot, j - 7);
        } else if j == 0 {
          MismatchAt(s, StorageRoot, j, 2);
        } else {
          assert s[j] == SdcardRoot[j];
          MismatchAt(s, StorageRoot, j, 0);
        }
      }
    }
  }

  /** A path under `/sdcard/` normalises to its part below it. */
  lemma NormalizeSdcard(rest: string)
    requires BelowRoot(rest)
    ensures NormalizePath(SdcardRoot + rest) == rest
  {
    StorageAfterSdcard(rest);
    ReplaceMissing(SdcardRoot + rest, StorageRoot, "/");
    ReplaceLeading(SdcardRoot, rest, "/");
    MissingAfterHead('/', rest, SdcardRoot);
    ReplaceMissing(rest, SdcardRoot, "/");
    TrimOneSlash(rest);
  }

  /** A path under `/storage/emulated/0/` normalises to its part below it. */
  lemma NormalizeStorage(rest: string)
    requires BelowRoot(rest)
    ensures NormalizePath(StorageRoot + rest) == rest
  {
    ReplaceLeading(StorageRoot, rest, "/");
    MissingAfterHead('/', rest, StorageRoot);
    ReplaceMissing(rest, StorageRoot, "/");
    ReplaceMissing("/" + rest, SdcardRoot, "/");
    TrimOneSlash(rest);
  }

  /** The two names of the storage root name the same file. */
  lemma NormalizeEitherRoot(rest: string)
    requires BelowRoot(rest)
    ensures NormalizePath(SdcardRoot + rest) == NormalizePath(StorageRoot + rest) == rest
  {
    NormalizeSdcard(rest);
    NormalizeStorage(rest);
  }

  /**
   * A root name inside the part below the root is replaced too: under
   * `/storage/emulated/0/`, a folder named `sdcard` disappears from the result.
   */
  lemma NormalizeRootInside()
    ensures NormalizePath(StorageRoot + "sdcard/x") == "x"
  {
    ReplaceLeading(StorageRoot, "sdcard/x", "/");
    assert "/" + "sdcard/x" == SdcardRoot + "x";
    ReplaceLeading(SdcardRoot, "x", "/");
    TrimOneSlash("x");
  }

  /** No `/` in `s` is directly followed by `s`: neither root can occur in it. */
  predicate NoSlashS(s: string) {
    forall i :: 0 <= i < |s| - 1 && s[i] == '/' ==> s[i + 1] != 's'
  }

  /** A pattern starting "/s" does not occur in text where no `/` is followed by `s`. */
  lemma SlashSMissing(s: string, pat: string)
    requires |pat| >= 2 && pat[0] == '/' && pat[1] == 's'
    requires NoSlashS(s)
    ensures !Contains(s, pat)
  {
    forall j | 0 <= j ensures !OccursAt(s, pat, j) {
      if j + |pat| <= |s| {
        if s[j] == '/' {
          MismatchAt(s, pat, j, 1);
        } else {
          MismatchAt(s, pat, j, 0);
        }
      }
    }
  }

  /** A relative path starting neither with `/` nor with `s`, with no `/` followed by `s`. */
  predicate PlainRelative(rest: string) {
    NoSlashS(rest) && (rest == [] || (rest[0] != '/' && rest[0] != 's'))
  }

  /** A plain relative path is below the root: "/s" occurs nowhere in it or after its leading slash. */
  lemma PlainBelowRoot(rest: string)
    requires PlainRelative(rest)
    ensures BelowRoot(rest)
  {
    var s := "/" + rest;
    assert NoSlashS(s) by {
      forall i | 0 <= i < |s| - 1 && s[i] == '/' ensures s[i + 1] != 's' {
        if i > 0 {
          assert s[i] == rest[i - 1] && s[i + 1] == rest[i];
        }
      }
    }
    SlashSMissing(s, SdcardRoot);
    SlashSMissing(s, StorageRoot);
  }

  /** The unit test's first two paths, `/sdcard/DCIM/test.jpg` and `/storage/emulated/0/DCIM/test.jpg`. */
  lemma NormalizeExamples()
    ensures NormalizePath(SdcardRoot + "DCIM/test.jpg") == "DCIM/test.jpg"
    ensures NormalizePath(StorageRoot + "DCIM/test.jpg") == "DCIM/test.jpg"
  {
    var rest := "DCIM/test.jpg";
    assert PlainRelative(rest) by {
      forall i | 0 <= i < |rest| - 1 && rest[i] == '/' ensures rest[i + 1] != 's' {
        assert i == 4;
      }
    }
    PlainBelowRoot(rest);
    NormalizeEitherRoot(rest);
  }

  /** The unit test's third path, `/simple/path.jpg`, under neither root: only its leading slash goes. */
  lemma NormalizeUnrootedExample()
    ensures NormalizePath("/simple/path.jpg") == "simple/path.jpg"
  {
    var s := "/simple/path.jpg";
    forall j | 0 <= j ensures !OccursAt(s, StorageRoot, j) && !OccursAt(s, SdcardRoot, j) {
      if j == 0 {
        MismatchAt(s, StorageRoot, j, 2);
        MismatchAt(s, SdcardRoot, j, 2);
      } else if j == 7 {
        MismatchAt(s, StorageRoot, j, 1);
        MismatchAt(s, SdcardRoot, j, 1);
      } else if j < |s| {
        MismatchAt(s, StorageRoot, j, 0);
        MismatchAt(s, SdcardRoot, j, 0);
      }
    }
    ReplaceAbsent(s, StorageRoot, "/");
    ReplaceAbsent(s, SdcardRoot, "/");
    TrimOneSlash("simple/path.jpg");
  }
}
