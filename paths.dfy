/**
 * The parts of Rust's `std::path` the services use: `Path::file_name`,
 * `Path::extension` and `PathBuf::push`/`join`. The services only build on
 * Windows (media_service.rs imports `std::os::windows` unconditionally), so
 * both '/' and '\' separate components and `join` inserts '\'.
 */
module Paths {
  import opened Wrappers

  predicate IsSeparator(c: char) {
    c == '/' || c == '\\'
  }

  predicate NoSeparator(s: string) {
    forall i :: 0 <= i < |s| ==> !IsSeparator(s[i])
  }

  const MainSeparator: char := '\\'

  /** Where the last component of `p` starts: just after its last separator, or 0. */
  function LastSegmentStart(p: string): (n: nat)
    ensures n <= |p|
    ensures NoSeparator(p[n..])
    ensures n > 0 ==> IsSeparator(p[n - 1])
    decreases |p|
  {
    if p == [] then 0
    else if IsSeparator(p[|p| - 1]) then |p|
    else
      var n := LastSegmentStart(p[..|p| - 1]);
      assert p[n..] == p[..|p| - 1][n..] + [p[|p| - 1]];
      n
  }

  /**
   * `Path::file_name`: the last component, skipping empty and "." components;
   * none when the path ends in ".." or has no normal component.
   */
  function FileName(p: string): (r: Option<string>)
    ensures r.Some? ==> r.value != [] && r.value != "." && r.value != ".." && NoSeparator(r.value)
    decreases |p|
  {
    if p == [] then None
    else
      var i := LastSegmentStart(p);
      var seg := p[i..];
      if seg == [] || seg == "." then
        if i == 0 then None else FileName(p[..i - 1])
      else if seg == ".." then None
      else Some(seg)
  }

  /** The index of the last '.' in `s`, if any. */
  function LastDot(s: string): (r: Option<nat>)
    ensures r.Some? ==> r.value < |s| && s[r.value] == '.' && '.' !in s[r.value + 1..]
    ensures r.None? ==> '.' !in s
    decreases |s|
  {
    if s == [] then None
    else if s[|s| - 1] == '.' then Some(|s| - 1)
    else
      var r := LastDot(s[..|s| - 1]);
      assert s == s[..|s| - 1] + [s[|s| - 1]];
      if r.Some? then
        assert s[r.value + 1..] == s[..|s| - 1][r.value + 1..] + [s[|s| - 1]];
        r
      else r
  }

  /**
   * The extension of a file name: the text after its last '.', none when
   * there is no dot or the only dot leads the name (".jpg"), and none for "..".
   */
  function ExtensionOfName(name: string): (r: Option<string>)
    ensures r.Some? ==> '.' !in r.value
    ensures r.Some? ==> exists stem :: stem != [] && name == stem + "." + r.value
  {
    if name == ".." then None
    else
      match LastDot(name)
      case None => None
      case Some(i) =>
        if i == 0 then None
        else
          assert name == name[..i] + "." + name[i + 1..];
          Some(name[i + 1..])
  }

  /** `Path::extension`. */
  function Extension(p: string): Option<string> {
    match FileName(p)
    case None => None
    case Some(name) => ExtensionOfName(name)
  }

  /** `PathBuf::join` of a single file name: a separator is added unless `dir` is empty or already ends in one. */
  function Join(dir: string, name: string): string {
    if dir == [] || IsSeparator(dir[|dir| - 1]) then dir + name
    else dir + [MainSeparator] + name
  }

  // ---------------------------------------------------------------------------

  /** The last component of `dir + name` starts right after `dir` when `dir` ends in a separator. */
  lemma {:induction false} LastSegmentStartOf(dir: string, name: string)
    requires NoSeparator(name)
    requires dir == [] || IsSeparator(dir[|dir| - 1])
    ensures LastSegmentStart(dir + name) == |dir|
    decreases |name|
  {
    var p := dir + name;
    if name == [] {
      assert p == dir;
    } else {
      var n' := name[..|name| - 1];
      assert p[..|p| - 1] == dir + n';
      assert p[|p| - 1] == name[|name| - 1];
      LastSegmentStartOf(dir, n');
    }
  }

  /** The last component of a path ending in a normal name is that name. */
  lemma FileNameOfSegment(dir: string, name: string)
    requires name != [] && name != "." && name != ".." && NoSeparator(name)
    requires dir == [] || IsSeparator(dir[|dir| - 1])
    ensures FileName(dir + name) == Some(name)
  {
    LastSegmentStartOf(dir, name);
    assert (dir + name)[|dir|..] == name;
  }

  /** Joining a file name onto a directory and taking `file_name` gives the name back. */
  lemma FileNameOfJoin(dir: string, name: string)
    requires name != [] && name != "." && name != ".." && NoSeparator(name)
    ensures FileName(Join(dir, name)) == Some(name)
  {
    if dir == [] || IsSeparator(dir[|dir| - 1]) {
      FileNameOfSegment(dir, name);
    } else {
      FileNameOfSegment(dir + [MainSeparator], name);
    }
  }

  /** The last dot of `s + "." + ext` is the one before `ext` when `ext` has none. */
  lemma {:induction false} LastDotOf(s: string, ext: string)
    requires '.' !in ext
    ensures LastDot(s + "." + ext) == Some(|s|)
    decreases |ext|
  {
    var t := s + "." + ext;
    if ext != [] {
      var e' := ext[..|ext| - 1];
      assert t[..|t| - 1] == s + "." + e';
      assert t[|t| - 1] == ext[|ext| - 1];
      LastDotOf(s, e');
    }
  }

  /** A name with a non-empty stem, a dot and a dot-free suffix has that suffix as its extension. */
  lemma ExtensionOfNameSplit(stem: string, ext: string)
    requires stem != [] && '.' !in ext
    requires !(stem == "." && ext == [])
    ensures ExtensionOfName(stem + "." + ext) == Some(ext)
  {
    var name := stem + "." + ext;
    assert name != ".." by {
      if |name| == 2 {
        assert ext == [] && |stem| == 1;
        assert stem == [stem[0]];
        assert name[0] == stem[0] != '.';
      }
    }
    LastDotOf(stem, ext);
    assert name[|stem| + 1..] == ext;
  }
}
