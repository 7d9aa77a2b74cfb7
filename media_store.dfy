/**
 * Reading `adb shell content query` output (src-tauri/src/services/media_service.rs):
 * the MediaStore id of a file, matched by path, and the path of a stored
 * thumbnail.
 */
module MediaStore {
  import opened Wrappers
  import opened Text
  import opened Exec
  import opened MediaText
  import Paths

  // ---------------------------------------------------------------------------
  // Values in a row
  // ---------------------------------------------------------------------------

  predicate IsComma(c: char) {
    c == ','
  }

  /** The trimmed text before the first comma, or of all of `after` if it has none. */
  function ValueBeforeComma(after: string): string {
    Trim(after[..CharIndex(after, ',')])
  }

  /** A value read before the first comma holds no comma. */
  lemma ValueBeforeCommaHasNone(after: string)
    ensures forall k :: 0 <= k < |ValueBeforeComma(after)| ==> ValueBeforeComma(after)[k] != ','
  {
    var head := after[..CharIndex(after, ',')];
    var v := Trim(head);
    assert forall k :: 0 <= k < |v| ==> v[k] in head;
  }

  /**
   * `extract_value`: the trimmed text after the first `key`, up to the next
   * comma or the end. A key that occurs has a value, which holds no comma.
   */
  function ExtractValue(line: string, key: string): (r: Option<string>)
    ensures r.Some? <==> Contains(line, key)
    ensures r.Some? ==> forall k :: 0 <= k < |r.value| ==> r.value[k] != ','
  {
    match Find(line, key)
    case None => None
    case Some(pos) =>
      ValueBeforeCommaHasNone(line[pos + |key|..]);
      Some(ValueBeforeComma(line[pos + |key|..]))
  }

  /**
   * The value of a key whose first occurrence is followed by `value` and then
   * by a comma or the end of the line is `value`, trimmed.
   */
  lemma ExtractValueAt(line: string, key: string, pos: nat, value: string, rest: string)
    requires Find(line, key) == Some(pos)
    requires line[pos + |key|..] == value + rest
    requires ',' !in value && (rest == [] || rest[0] == ',')
    ensures ExtractValue(line, key) == Some(Trim(value))
  {
    assert ExtractValue(line, key) == Some(ValueBeforeComma(value + rest));
    ValueBeforeCommaOf(value, rest);
  }

  /** The value of a key met first right after a text without the key's first character. */
  lemma ValueAfterKey(pre: string, key: string, value: string, rest: string)
    requires key != [] && key[0] !in pre
    requires ',' !in value && (rest == [] || rest[0] == ',')
    ensures ExtractValue(pre + key + (value + rest), key) == Some(Trim(value))
  {
    var line := pre + key + (value + rest);
    FindAfterPrefix(pre, key, value + rest);
    assert line[|pre| + |key|..] == value + rest;
    ExtractValueAt(line, key, |pre|, value, rest);
  }

  /** A value without a comma, followed by a comma or nothing, is read whole. */
  lemma ValueBeforeCommaOf(value: string, rest: string)
    requires ',' !in value && (rest == [] || rest[0] == ',')
    ensures ValueBeforeComma(value + rest) == Trim(value)
  {
    CharIndexOfEnd(value, rest);
    assert (value + rest)[..|value|] == value;
  }

  /** The first comma of `value + rest` is where `rest` starts. */
  lemma CharIndexOfEnd(value: string, rest: string)
    requires ',' !in value && (rest == [] || rest[0] == ',')
    ensures CharIndex(value + rest, ',') == |value|
  {
    if rest == [] {
      assert value + rest == value;
    } else {
      assert value + rest == value + [','] + rest[1..];
      CharIndexOf(value, ',', rest[1..]);
    }
  }

  /** A key is absent from a line exactly when it has no value there. */
  lemma ExtractValueNone(line: string, key: string)
    ensures ExtractValue(line, key).None? <==> forall j :: 0 <= j ==> !OccursAt(line, key, j)
  {
  }

  // ---------------------------------------------------------------------------
  // Matching a row to a path
  // ---------------------------------------------------------------------------

  /** Two normalised paths name the same file: equal, or one ends with the other. */
  predicate PathsAgree(normData: string, normTarget: string) {
    normData == normTarget || EndsWith(normData, normTarget) || EndsWith(normTarget, normData)
  }

  /** A row with an id and a path that agrees with the (normalised) target. */
  predicate RowMatches(line: string, normTarget: string) {
    ExtractValue(line, "_id=").Some? && ExtractValue(line, "_data=").Some?
    && PathsAgree(NormalizePath(ExtractValue(line, "_data=").value), normTarget)
  }

  /** The id of a row that matches the target, if it does. */
  function MatchedId(line: string, normTarget: string): (r: Option<string>)
    ensures r.Some? <==> RowMatches(line, normTarget)
  {
    if RowMatches(line, normTarget) then ExtractValue(line, "_id=") else None
  }

  /** The first result `f` gives for the elements of `xs`, in order. */
  function FirstSome<T, A, U>(xs: seq<T>, a: A, f: (T, A) -> Option<U>): Option<U>
    decreases |xs|
  {
    if xs == [] then None
    else if f(xs[0], a).Some? then f(xs[0], a)
    else FirstSome(xs[1..], a, f)
  }

  /** On one element, `FirstSome` is that element's result. */
  lemma FirstSomeSingle<T, A, U>(x: T, a: A, f: (T, A) -> Option<U>)
    ensures FirstSome([x], a, f) == f(x, a)
  {
    assert [x][1..] == [];
  }

  /**
   * `FirstSome` finds something exactly when some element gives a result,
   * and then it is the result of the first element that does.
   */
  lemma {:induction false} FirstSomeSpec<T, A, U>(xs: seq<T>, a: A, f: (T, A) -> Option<U>)
    ensures FirstSome(xs, a, f).None? <==> forall i :: 0 <= i < |xs| ==> f(xs[i], a).None?
    ensures FirstSome(xs, a, f).Some? ==>
              exists i :: 0 <= i < |xs| && f(xs[i], a) == FirstSome(xs, a, f)
                          && (forall k :: 0 <= k < i ==> f(xs[k], a).None?)
    decreases |xs|
  {
    if xs != [] && f(xs[0], a).None? {
      var tail := xs[1..];
      FirstSomeSpec(tail, a, f);
      assert forall i :: 1 <= i < |xs| ==> xs[i] == tail[i - 1];
      if FirstSome(tail, a, f).Some? {
        var i :| 0 <= i < |tail| && f(tail[i], a) == FirstSome(tail, a, f)
                 && (forall k :: 0 <= k < i ==> f(tail[k], a).None?);
        assert xs[i + 1] == tail[i];
      }
    }
  }

  /** The id of the first row that matches, if any. */
  function FirstMatchingId(lines: seq<string>, normTarget: string): Option<string> {
    FirstSome(lines, normTarget, MatchedId)
  }

  /**
   * There is an id exactly when some row matches, and it is the id of the
   * first row that does.
   */
  lemma FirstMatchingIdSpec(lines: seq<string>, normTarget: string)
    ensures FirstMatchingId(lines, normTarget).None? <==> forall i :: 0 <= i < |lines| ==> !RowMatches(lines[i], normTarget)
    ensures FirstMatchingId(lines, normTarget).Some? ==>
              exists i :: 0 <= i < |lines| && RowMatches(lines[i], normTarget)
                          && (forall k :: 0 <= k < i ==> !RowMatches(lines[k], normTarget))
                          && FirstMatchingId(lines, normTarget) == ExtractValue(lines[i], "_id=")
  {
    FirstSomeSpec(lines, normTarget, MatchedId);
    if FirstMatchingId(lines, normTarget).Some? {
      var i :| 0 <= i < |lines| && MatchedId(lines[i], normTarget) == FirstMatchingId(lines, normTarget)
               && (forall k :: 0 <= k < i ==> MatchedId(lines[k], normTarget).None?);
      assert RowMatches(lines[i], normTarget);
    }
  }

  /** `find_id_matching_path`: the id of the first row whose path agrees with the target's. */
  method FindIdMatchingPath(output: string, targetPath: string) returns (r: Option<string>)
    ensures r == FirstMatchingId(Lines(output), NormalizePath(targetPath))
  {
    var normTarget := NormalizePath(targetPath);
    var lines := Lines(output);
    var i := 0;
    while i < |lines|
      invariant 0 <= i <= |lines|
      invariant FirstMatchingId(lines[i..], normTarget) == FirstMatchingId(lines, normTarget)
    {
      assert lines[i..][1..] == lines[i + 1..];
      var id := ExtractValue(lines[i], "_id=");
      var data := ExtractValue(lines[i], "_data=");
      if id.Some? && data.Some? {
        var normData := NormalizePath(data.value);
        if normData == normTarget || EndsWith(normData, normTarget) || EndsWith(normTarget, normData) {
          return Some(id.value);
        }
      }
      i := i + 1;
    }
    return None;
  }

  /** The line prefix `content query` prints before the columns of its first row. */
  const RowPrefix: string := "Row: 0 "

  /** The row prefix holds no underscore. */
  lemma RowPrefixPlain()
    ensures '_' !in RowPrefix
  {
  }

  /** A first row of `content query --projection _id:_data`. */
  function QueryRow(id: string, path: string): string {
    RowPrefix + "_id=" + id + ", _data=" + path
  }

  /** Where the `_data=` key of a row starts. */
  function DataKeyAt(id: string): nat {
    |RowPrefix| + 6 + |id|
  }

  /** The only `_` of a row before its `_data=` key is the one of `_id=`. */
  lemma QueryRowUnderscores(id: string, path: string)
    requires '_' !in id
    ensures forall k :: 0 <= k < DataKeyAt(id) && k != |RowPrefix| ==> QueryRow(id, path)[k] != '_'
  {
    var line := QueryRow(id, path);
    forall k | 0 <= k < DataKeyAt(id) && k != |RowPrefix| ensures line[k] != '_' {
      if 11 <= k < 11 + |id| {
        assert line[k] == id[k - 11];
        assert id[k - 11] in id;
      }
    }
  }

  /** Concatenation regrouped so that the last three parts form one. */
  lemma Regroup<T>(a: seq<T>, b: seq<T>, c: seq<T>, d: seq<T>, e: seq<T>)
    ensures a + b + c + d + e == a + b + (c + (d + e))
  {
  }

  /** The `_id=` value of such a row is its id. */
  lemma QueryRowId(id: string, path: string)
    requires '_' !in id && ',' !in id && Trim(id) == id
    ensures ExtractValue(QueryRow(id, path), "_id=") == Some(id)
  {
    var rest := ", _data=" + path;
    Regroup(RowPrefix, "_id=", id, ", _data=", path);
    assert QueryRow(id, path) == RowPrefix + "_id=" + (id + rest);
    RowPrefixPlain();
    assert rest[0] == ',';
    ValueAfterKey(RowPrefix, "_id=", id, rest);
  }

  /** The `_data=` value of such a row is its path. */
  lemma QueryRowData(id: string, path: string)
    requires '_' !in id && ',' !in path && Trim(path) == path
    ensures ExtractValue(QueryRow(id, path), "_data=") == Some(path)
  {
    var line := QueryRow(id, path);
    var d := DataKeyAt(id);
    DataKeyFirst(id, path);
    assert line[d + 6..] == path + [];
    ExtractValueAt(line, "_data=", d, path, []);
  }

  /** The first `_data=` of such a row is its key. */
  lemma DataKeyFirst(id: string, path: string)
    requires '_' !in id
    ensures Find(QueryRow(id, path), "_data=") == Some(DataKeyAt(id))
  {
    var line := QueryRow(id, path);
    var d := DataKeyAt(id);
    QueryRowUnderscores(id, path);
    assert line[d..d + 6] == "_data=";
    forall k | 0 <= k < d ensures !OccursAt(line, "_data=", k) {
      if k == 7 {
        MismatchAt(line, "_data=", k, 1);
      } else {
        MismatchAt(line, "_data=", k, 0);
      }
    }
    FindAt(line, "_data=", d);
  }

  /** A one-row answer is that row, when nothing in it breaks the line. */
  lemma QueryRowLines(id: string, path: string)
    requires '\n' !in id && '\n' !in path
    ensures Lines(QueryRow(id, path)) == [QueryRow(id, path)]
  {
    var line := QueryRow(id, path);
    var head := RowPrefix + "_id=" + id + ", _data=";
    assert line == head + path;
    forall k | 0 <= k < |line| ensures line[k] != '\n' {
      if k < 11 {
      } else if k < 11 + |id| {
        assert line[k] == id[k - 11];
        assert id[k - 11] in id;
      } else if k < |head| {
      } else {
        assert line[k] == path[k - |head|];
        assert path[k - |head|] in path;
      }
    }
    LinesSingle(line);
  }

  /** An id with no separator, space or line break in it. */
  predicate PlainId(id: string) {
    id != [] && forall i :: 0 <= i < |id| ==> id[i] != '_' && id[i] != ',' && id[i] != '\n' && !IsWhitespace(id[i])
  }

  /** A path below the storage root with no separator, space or line break in it. */
  predicate PlainFile(rel: string) {
    rel != [] && BelowRoot(rel)
    && forall i :: 0 <= i < |rel| ==> rel[i] != ',' && rel[i] != '\n' && !IsWhitespace(rel[i])
  }

  /** The one row of an answer about a file under `/storage/emulated/0/`. */
  lemma StorageRow(id: string, rel: string)
    requires PlainId(id) && PlainFile(rel)
    ensures Lines(QueryRow(id, StorageRoot + rel)) == [QueryRow(id, StorageRoot + rel)]
    ensures ExtractValue(QueryRow(id, StorageRoot + rel), "_id=") == Some(id)
    ensures ExtractValue(QueryRow(id, StorageRoot + rel), "_data=") == Some(StorageRoot + rel)
  {
    var path := StorageRoot + rel;
    assert '_' !in id && ',' !in id && '\n' !in id by {
      forall i | 0 <= i < |id| ensures id[i] != '_' && id[i] != ',' && id[i] != '\n' { }
    }
    assert ',' !in path && '\n' !in path by {
      forall i | 0 <= i < |path| ensures path[i] != ',' && path[i] != '\n' {
        if i >= |StorageRoot| {
          assert path[i] == rel[i - |StorageRoot|];
        }
      }
    }
    TrimUnchanged(id);
    assert path[|path| - 1] == rel[|rel| - 1];
    TrimUnchanged(path);
    QueryRowLines(id, path);
    QueryRowId(id, path);
    QueryRowData(id, path);
  }

  /**
   * A row holding a file under `/storage/emulated/0/` is found from the
   * file's `/sdcard/` name.
   */
  lemma FindIdAcrossRoots(id: string, rel: string)
    requires PlainId(id) && PlainFile(rel)
    ensures FirstMatchingId(Lines(QueryRow(id, StorageRoot + rel)), NormalizePath(SdcardRoot + rel)) == Some(id)
  {
    StorageRow(id, rel);
    NormalizeEitherRoot(rel);
    assert RowMatches(QueryRow(id, StorageRoot + rel), rel);
  }

  /** A row is not found from the name of a file whose relative path does not agree with its own. */
  lemma FindIdOtherFile(id: string, rel: string, other: string)
    requires PlainId(id) && PlainFile(rel) && BelowRoot(other)
    requires !PathsAgree(rel, other)
    ensures FirstMatchingId(Lines(QueryRow(id, StorageRoot + rel)), NormalizePath(SdcardRoot + other)) == None
  {
    var line := QueryRow(id, StorageRoot + rel);
    StorageRow(id, rel);
    NormalizeStorage(rel);
    NormalizeSdcard(other);
    OneRowMismatch(line, StorageRoot + rel, other);
  }

  /** A single row whose path does not agree with the target yields no id. */
  lemma OneRowMismatch(line: string, data: string, normTarget: string)
    requires ExtractValue(line, "_data=") == Some(data)
    requires !PathsAgree(NormalizePath(data), normTarget)
    ensures FirstMatchingId([line], normTarget) == None
  {
    assert !RowMatches(line, normTarget);
    FirstSomeSingle(line, normTarget, MatchedId);
  }

  /** The file of the unit test below is below the root. */
  lemma ExampleFileBelowRoot()
    ensures BelowRoot("DCIM/Camera/IMG.jpg")
  {
    var rel := "DCIM/Camera/IMG.jpg";
    assert PlainRelative(rel) by {
      forall i | 0 <= i < |rel| - 1 && rel[i] == '/' ensures rel[i + 1] != 's' {
        assert i == 4 || i == 11;
      }
    }
    PlainBelowRoot(rel);
  }

  /** The file of the unit test below is a plain path below the root. */
  lemma ExampleFile()
    ensures PlainFile("DCIM/Camera/IMG.jpg")
  {
    ExampleFileBelowRoot();
    var rel := "DCIM/Camera/IMG.jpg";
    assert forall i :: 0 <= i < |rel| ==> rel[i] != ',' && rel[i] != '\n' && !IsWhitespace(rel[i]);
  }

  /** The other file of the unit test below is below the root too, and its path disagrees with the first. */
  lemma ExampleOtherFile()
    ensures BelowRoot("Other/IMG.jpg")
    ensures !PathsAgree("DCIM/Camera/IMG.jpg", "Other/IMG.jpg")
  {
    var rel := "DCIM/Camera/IMG.jpg";
    var other := "Other/IMG.jpg";
    assert PlainRelative(other) by {
      forall i | 0 <= i < |other| - 1 && other[i] == '/' ensures other[i + 1] != 's' {
        assert i == 5;
      }
    }
    PlainBelowRoot(other);
    assert rel[|rel| - |other|] == 'a' && other[0] == 'O';
  }

  /**
   * The unit test of `find_id_matching_path`: the row of
   * `/storage/emulated/0/DCIM/Camera/IMG.jpg` with id 123 is found from
   * `/sdcard/DCIM/Camera/IMG.jpg`, and not from `/sdcard/Other/IMG.jpg`.
   */
  lemma FindIdExamples()
    ensures FirstMatchingId(Lines(QueryRow("123", StorageRoot + "DCIM/Camera/IMG.jpg")),
                            NormalizePath(SdcardRoot + "DCIM/Camera/IMG.jpg")) == Some("123")
    ensures FirstMatchingId(Lines(QueryRow("123", StorageRoot + "DCIM/Camera/IMG.jpg")),
                            NormalizePath(SdcardRoot + "Other/IMG.jpg")) == None
  {
    var rel := "DCIM/Camera/IMG.jpg";
    var other := "Other/IMG.jpg";
    assert PlainId("123");
    ExampleFile();
    ExampleOtherFile();
    FindIdAcrossRoots("123", rel);
    FindIdOtherFile("123", rel, other);
  }

  // ---------------------------------------------------------------------------
  // The thumbnail path
  // ---------------------------------------------------------------------------

  /** The `_data=` path of one line, trailing commas dropped, if not empty. */
  function DataPathOf(line: string): (r: Option<string>)
    ensures r.Some? ==> r.value != [] && r.value[|r.value| - 1] != ','
  {
    match Find(line, "_data=")
    case None => None
    case Some(pos) =>
      var path := TrimEndBy(line[pos + 6..], IsComma);
      if path == [] then None else Some(path)
  }

  /** The path of a line is the text after its first `_data=`, with the trailing commas dropped. */
  lemma DataPathAt(pre: string, path: string, commas: string)
    requires '_' !in pre
    requires path != [] && path[|path| - 1] != ','
    requires forall i :: 0 <= i < |commas| ==> commas[i] == ','
    ensures DataPathOf(pre + "_data=" + (path + commas)) == Some(path)
  {
    var line := pre + "_data=" + (path + commas);
    FindAfterPrefix(pre, "_data=", path + commas);
    assert line[|pre| + 6..] == path + commas;
    var t := TrimEndBy(path + commas, IsComma);
    assert t == (path + commas)[..|path|] == path;
  }

  /** `DataPathOf`, with an argument it ignores, to fit `FirstSome`. */
  function DataPathIn(line: string, unused: ()): Option<string> {
    DataPathOf(line)
  }

  /** The path of the first line that has one. */
  function FirstDataPath(lines: seq<string>): Option<string> {
    FirstSome(lines, (), DataPathIn)
  }

  /** There is a path exactly when some line has one, and it is the path of the first such line. */
  lemma FirstDataPathSpec(lines: seq<string>)
    ensures FirstDataPath(lines).None? <==> forall i :: 0 <= i < |lines| ==> DataPathOf(lines[i]).None?
    ensures FirstDataPath(lines).Some? ==>
              exists i :: 0 <= i < |lines| && DataPathOf(lines[i]) == FirstDataPath(lines)
                          && (forall k :: 0 <= k < i ==> DataPathOf(lines[k]).None?)
  {
    FirstSomeSpec(lines, (), DataPathIn);
  }

  /** `parse_data_path`: the first non-empty `_data=` path of the output. */
  method ParseDataPath(output: string) returns (r: Option<string>)
    ensures r == FirstDataPath(Lines(output))
  {
    var lines := Lines(output);
    var i := 0;
    while i < |lines|
      invariant 0 <= i <= |lines|
      invariant FirstDataPath(lines[i..]) == FirstDataPath(lines)
    {
      assert lines[i..][1..] == lines[i + 1..];
      var line := lines[i];
      var pos := Find(line, "_data=");
      if pos.Some? {
        var path := TrimEndBy(line[pos.value + 6..], IsComma);
        if path != [] {
          return Some(path);
        }
      }
      i := i + 1;
    }
    return None;
  }
}
