/**
 * Browsing the device (src-tauri/src/services/media_service.rs): the folders
 * and the media files `ls -la` lists under a path, each listing filtered
 * line by line and then sorted.
 */
module MediaListing {
  import opened Wrappers
  import opened Text
  import opened Models
  import opened Errors
  import opened Exec
  import opened Sorting
  import opened Numbers
  import opened MediaText
  import Paths

  /** Folders that count as media folders, by name or anywhere in their path. */
  const MediaFolders: seq<string> := ["DCIM", "Pictures", "Download", "Movies", "WhatsApp/Media", "Telegram", "Screenshots"]

  const ImageExtensions: seq<string> := ["jpg", "jpeg", "png", "gif", "webp", "bmp", "heic", "heif"]

  const VideoExtensions: seq<string> := ["mp4", "mkv", "avi", "mov", "webm", "3gp", "m4v"]

  /** Where a listing is taken when no path is given. */
  const DefaultBrowsePath: string := "/sdcard"

  /** The adb arguments that list `path` on the device. */
  function ListArgs(serial: string, path: string): (args: seq<string>)
    ensures |args| == 6 && args[..5] == ["-s", serial, "shell", "ls", "-la"]
    ensures ShellUnquote(args[5], false) == Some(path)
  {
    QuoteRemotePathRoundTrip(path);
    ["-s", serial, "shell", "ls", "-la", QuoteRemotePath(path)]
  }

  /** The path of an entry of the listing of `base`: `base`, a `/` unless it ends in one, and the name. */
  function ChildPath(base: string, name: string): (p: string)
    ensures StartsWith(p, base) && EndsWith(p, name)
  {
    assert (base + name)[..|base|] == base && (base + "/" + name)[..|base|] == base;
    assert (base + name)[|base|..] == name && (base + "/" + name)[|base| + 1..] == name;
    if EndsWith(base, "/") then base + name else base + "/" + name
  }

  /** An entry's path starts with the listed path and ends with the entry's name as its last component. */
  lemma ChildPathParts(base: string, name: string)
    requires name != [] && name != "." && name != ".." && Paths.NoSeparator(name)
    ensures StartsWith(ChildPath(base, name), base)
    ensures Paths.FileName(ChildPath(base, name)) == Some(name)
  {
    if EndsWith(base, "/") {
      assert base[|base| - 1] == '/';
      Paths.FileNameOfSegment(base, name);
    } else {
      assert base + "/" + name == (base + "/") + name;
      Paths.FileNameOfSegment(base + "/", name);
    }
  }

  // ---------------------------------------------------------------------------
  // Folders
  // ---------------------------------------------------------------------------

  /** A known media folder: its name is one of them, ignoring case, or its path contains one. */
  predicate IsMediaFolder(name: string, path: string) {
    MatchesAny(name, path, MediaFolders)
  }

  /** Whether a folder is a media folder does not depend on the ASCII case of its name. */
  lemma MediaFolderIgnoresCase(name: string, path: string)
    ensures IsMediaFolder(name, path) <==> IsMediaFolder(ToLower(name), path)
  {
    ToLowerIdempotent(name);
  }

  /** `folders.iter().any(..)`: some folder is the name, ignoring case, or occurs in the path. */
  predicate MatchesAny(name: string, path: string, folders: seq<string>) {
    exists k :: 0 <= k < |folders| && (EqIgnoreAsciiCase(name, folders[k]) || Contains(path, folders[k]))
  }

  /** Lines `list_folders` skips before splitting: blank, the "total" line, and error messages. */
  predicate NoiseLine(line: string) {
    line == [] || StartsWith(line, "total")
    || Contains(line, ": No such file or directory") || Contains(line, ": Permission denied")
  }

  /** `.`, `..` and hidden entries. */
  predicate HiddenName(name: string) {
    name == "." || name == ".." || StartsWith(name, ".")
  }

  /** An entry name is hidden exactly when it starts with a dot. */
  lemma HiddenNameSpec(name: string)
    ensures HiddenName(name) <==> StartsWith(name, ".")
  {
  }

  /**
   * The folder one line of `ls -la` describes, if any: a visible entry, its
   * item count not yet known.
   */
  function FolderFromLine(base: string, raw: string): (r: Option<FolderInfo>)
    ensures r.Some? ==> !StartsWith(r.value.name, ".") && r.value.itemCount == None
  {
    var line := Trim(raw);
    if NoiseLine(line) then None
    else
      var parts := SplitWhitespace(line);
      if |parts| < 8 || parts[0][0] != 'd' then None
      else
        var name := Join(parts[7..], " ");
        if HiddenName(name) then None
        else
          var path := ChildPath(base, name);
          Some(FolderInfo(name, path, None, IsMediaFolder(name, path)))
  }

  /**
   * A line yields a folder exactly when, trimmed, it is not blank, not the
   * "total" line and no error message, has at least eight fields, the first
   * a directory's permissions, and the name (the fields from the eighth on,
   * one space apart) does not start with a dot (which rules out `.` and `..`).
   */
  lemma FolderFromLineSome(base: string, raw: string)
    ensures var line := Trim(raw);
            var parts := SplitWhitespace(line);
            FolderFromLine(base, raw).Some? <==>
              !NoiseLine(line) && |parts| >= 8 && parts[0][0] == 'd' && !StartsWith(Join(parts[7..], " "), ".")
  {
    var line := Trim(raw);
    var parts := SplitWhitespace(line);
    if |parts| >= 8 {
      HiddenNameSpec(Join(parts[7..], " "));
    }
  }

  /** The folder a line yields is its name under `base`, with no item count and its media flag. */
  lemma FolderFromLineFields(base: string, raw: string)
    requires FolderFromLine(base, raw).Some?
    ensures var parts := SplitWhitespace(Trim(raw));
            var f := FolderFromLine(base, raw).value;
            f.name == Join(parts[7..], " ") && f.path == ChildPath(base, f.name)
            && f.itemCount == None && f.isMediaFolder == IsMediaFolder(f.name, f.path)
  {
  }

  /** The folders of the lines, in order. */
  function FoldersOf(base: string, lines: seq<string>): seq<FolderInfo> {
    FilterMap(lines, FolderParser(base))
  }

  /** `FolderFromLine` for the listing of `base`, as a function of the line. */
  function FolderParser(base: string): string -> Option<FolderInfo> {
    raw => FolderFromLine(base, raw)
  }

  /**
   * The order of `list_folders`: media folders first, then by lower-cased
   * name; names equal but for ASCII case are tied.
   */
  predicate FolderLe(a: FolderInfo, b: FolderInfo): (le: bool)
    ensures a.isMediaFolder && !b.isMediaFolder ==> le
    ensures !a.isMediaFolder && b.isMediaFolder ==> !le
    ensures a.isMediaFolder == b.isMediaFolder && EqIgnoreAsciiCase(a.name, b.name) ==> le
  {
    LexLeTotal(ToLower(a.name), ToLower(a.name));
    if a.isMediaFolder && !b.isMediaFolder then true
    else if !a.isMediaFolder && b.isMediaFolder then false
    else LexLe(ToLower(a.name), ToLower(b.name))
  }

  lemma FolderLeTotalPreorder()
    ensures TotalPreorder(FolderLe)
  {
    forall a, b ensures FolderLe(a, b) || FolderLe(b, a) {
      LexLeTotal(ToLower(a.name), ToLower(b.name));
    }
    forall a, b, c | FolderLe(a, b) && FolderLe(b, c) ensures FolderLe(a, c) {
      if a.isMediaFolder == b.isMediaFolder == c.isMediaFolder {
        LexLeTrans(ToLower(a.name), ToLower(b.name), ToLower(c.name));
      }
    }
  }

  /** In a sorted folder list every media folder comes before every other folder. */
  lemma MediaFoldersFirst(fs: seq<FolderInfo>)
    requires Sorted(fs, FolderLe)
    ensures forall i, j :: 0 <= i < |fs| && 0 <= j < |fs| && fs[i].isMediaFolder && !fs[j].isMediaFolder ==> i < j
  {
    forall i, j | 0 <= i < |fs| && 0 <= j < |fs| && fs[i].isMediaFolder && !fs[j].isMediaFolder
      ensures i < j
    {
      assert !FolderLe(fs[j], fs[i]);
    }
  }

  /** Within each group a sorted folder list is in order of lower-cased name. */
  lemma FoldersByName(fs: seq<FolderInfo>)
    requires Sorted(fs, FolderLe)
    ensures forall i, j :: 0 <= i < j < |fs| && fs[i].isMediaFolder == fs[j].isMediaFolder ==>
              LexLe(ToLower(fs[i].name), ToLower(fs[j].name))
  {
  }

  /** `list_folders`, given what adb returns for each argument list. */
  method ListFolders(adb: seq<string> -> Output, serial: string, path: Option<string>)
    returns (r: Result<seq<FolderInfo>, AppError>)
    ensures var base := path.UnwrapOr(DefaultBrowsePath);
            var run := RunAdbCommand(adb(ListArgs(serial, base)));
            (run.Err? ==> r == Err(run.error))
            && (run.Ok? ==> r == Ok(SortBy(FoldersOf(base, Lines(run.value)), FolderLe)))
    ensures r.Ok? ==> Sorted(r.value, FolderLe)
  {
    var base := path.UnwrapOr(DefaultBrowsePath);
    var run := RunAdbCommand(adb(ListArgs(serial, base)));
    if run.Err? {
      return Err(run.error);
    }
    var folders := CollectFolders(base, Lines(run.value));
    FolderLeTotalPreorder();
    SortBySorted(folders, FolderLe);
    r := Ok(SortBy(folders, FolderLe));
  }

  /** The loop of `list_folders`: one folder pushed for each line that describes one. */
  method CollectFolders(base: string, lines: seq<string>) returns (folders: seq<FolderInfo>)
    ensures folders == FoldersOf(base, lines)
  {
    folders := [];
    var i := 0;
    while i < |lines|
      invariant 0 <= i <= |lines|
      invariant folders == FoldersOf(base, lines[..i])
    {
      folders := PushFolderOfLine(base, lines, i, folders);
      i := i + 1;
    }
    assert lines[..i] == lines;
  }

  /** One pass of the loop of `list_folders`: the folder line `i` describes, if any, pushed. */
  method PushFolderOfLine(base: string, lines: seq<string>, i: nat, folders: seq<FolderInfo>)
    returns (next: seq<FolderInfo>)
    requires i < |lines| && folders == FoldersOf(base, lines[..i])
    ensures next == FoldersOf(base, lines[..i + 1])
  {
    var folder := ParseFolderLine(base, lines[i]);
    FilterMapStep(lines, i, FolderParser(base), folder);
    next := folders;
    if folder.Some? {
      next := next + [folder.value];
    }
  }
  /** The body of the loop of `list_folders` for one line, with its early `continue`s. */
  method ParseFolderLine(base: string, raw: string) returns (folder: Option<FolderInfo>)
    ensures folder == FolderFromLine(base, raw)
  {
    var line := Trim(raw);
    if NoiseLine(line) {
      return None;
    }
    var parts := SplitWhitespace(line);
    if |parts| < 8 {
      return None;
    }
    var permissions := parts[0];
    if permissions[0] != 'd' {
      return None;
    }
    var name := Join(parts[7..], " ");
    if HiddenName(name) {
      return None;
    }
    var folderPath := if EndsWith(base, "/") then base + name else base + "/" + name;
    return Some(FolderInfo(name, folderPath, None, IsMediaFolder(name, folderPath)));
  }

  // ---------------------------------------------------------------------------
  // Media files
  // ---------------------------------------------------------------------------

  /** The media type a lower-cased extension stands for. */
  function MediaTypeOf(ext: string): Option<MediaType> {
    if ext in ImageExtensions then Some(Image)
    else if ext in VideoExtensions then Some(Video)
    else None
  }

  /** No extension is both an image's and a video's, so each list decides its type alone. */
  lemma MediaTypeOfSpec(ext: string)
    ensures MediaTypeOf(ext) == Some(Image) <==> ext in ImageExtensions
    ensures MediaTypeOf(ext) == Some(Video) <==> ext in VideoExtensions
    ensures MediaTypeOf(ext) == None <==> ext !in ImageExtensions && ext !in VideoExtensions
  {
    if ext in ImageExtensions {
      var k :| 0 <= k < |ImageExtensions| && ImageExtensions[k] == ext;
      assert ext[0] in "jpgwbh";
      assert ext !in VideoExtensions;
    }
  }

  /** Whether the filter lets a file of this type through. */
  predicate Accepts(filter: MediaFilter, t: MediaType) {
    match filter
    case All => true
    case Images => t == Image
    case Videos => t == Video
  }

  /**
   * The extension `list_media_files` looks at: `Path::extension` of the name,
   * lower-cased, empty if none.
   */
  function ExtensionOf(name: string): (ext: string)
    ensures Paths.Extension(name).None? ==> ext == []
    ensures Paths.Extension(name).Some? ==> |ext| == |Paths.Extension(name).value|
    ensures forall i :: 0 <= i < |ext| ==> !('A' <= ext[i] <= 'Z')
  {
    var e := Paths.Extension(name).UnwrapOr([]);
    ToLowerIdempotent(e);
    ToLower(e)
  }

  /**
   * The media file one line of `ls -la` describes, if it passes the filter:
   * an entry whose type, read from its extension, the filter accepts, with a
   * size that fits in a `u64` and a date.
   */
  function MediaFromLine(path: string, filter: MediaFilter, raw: string): (r: Option<MediaItem>)
    ensures r.Some? ==> Accepts(filter, r.value.mediaType) && Some(r.value.mediaType) == MediaTypeOf(ExtensionOf(r.value.name))
    ensures r.Some? ==> r.value.sizeBytes < U64Limit && r.value.dateTaken.Some?
  {
    var line := Trim(raw);
    if line == [] || StartsWith(line, "total") then None
    else
      var parts := SplitWhitespace(line);
      if |parts| < 7 || parts[0][0] != '-' then None
      else
        var size := ParseU64(parts[4]).UnwrapOr(0);
        var dateTaken := if parts[5] != [] && parts[6] != [] then Some(parts[5] + " " + parts[6]) else None;
        if |parts| <= 7 then None
        else
          var name := Join(parts[7..], " ");
          match MediaTypeOf(ExtensionOf(name))
          case None => None
          case Some(t) =>
            if !Accepts(filter, t) then None
            else Some(MediaItem(ChildPath(path, name), name, t, size, None, None, None, dateTaken, None))
  }

  /**
   * A line yields a media file exactly when, trimmed, it is not the "total"
   * line, has more than seven fields, the first a regular file's permissions,
   * and its name has an image or video extension the filter lets through.
   * The size is the fifth field when it parses and 0 otherwise; the date is
   * always present (the sixth and seventh fields are never empty).
   */
  lemma MediaFromLineSpec(path: string, filter: MediaFilter, raw: string)
    ensures var line := Trim(raw);
            var parts := SplitWhitespace(line);
            MediaFromLine(path, filter, raw).Some? <==>
              line != [] && !StartsWith(line, "total") && |parts| > 7 && parts[0][0] == '-'
              && MediaTypeOf(ExtensionOf(Join(parts[7..], " "))).Some?
              && Accepts(filter, MediaTypeOf(ExtensionOf(Join(parts[7..], " "))).value)
    ensures var parts := SplitWhitespace(Trim(raw));
            MediaFromLine(path, filter, raw).Some? ==>
              var m := MediaFromLine(path, filter, raw).value;
              m.name == Join(parts[7..], " ") && m.path == ChildPath(path, m.name)
              && m.mediaType == MediaTypeOf(ExtensionOf(m.name)).value
              && m.sizeBytes == (if ParseU64(parts[4]).Some? then ParseU64(parts[4]).value else 0)
              && m.dateTaken == Some(parts[5] + " " + parts[6])
              && m.width == None && m.height == None && m.durationMs == None && m.thumbnailUrl == None
  {
  }

  /** The media files of the lines, in order. */
  function MediaOf(path: string, filter: MediaFilter, lines: seq<string>): seq<MediaItem> {
    FilterMap(lines, MediaParser(path, filter))
  }

  /** `MediaFromLine` for the listing of `path` under `filter`, as a function of the line. */
  function MediaParser(path: string, filter: MediaFilter): string -> Option<MediaItem> {
    raw => MediaFromLine(path, filter, raw)
  }

  /** `Option<String>`'s order: None first, then by the text. */
  predicate DateLe(a: Option<string>, b: Option<string>) {
    match (a, b)
    case (None, _) => true
    case (Some(_), None) => false
    case (Some(x), Some(y)) => LexLe(x, y)
  }

  /** Every date is ordered before itself. */
  lemma DateLeReflexive(d: Option<string>)
    ensures DateLe(d, d)
  {
    if d.Some? {
      LexLeTotal(d.value, d.value);
    }
  }

  /** The order of `list_media_files`: the later date first, files without a date last. */
  predicate MediaLe(a: MediaItem, b: MediaItem): (le: bool)
    ensures b.dateTaken.None? ==> le
    ensures a.dateTaken.None? && b.dateTaken.Some? ==> !le
    ensures a.dateTaken == b.dateTaken ==> le
  {
    DateLeReflexive(a.dateTaken);
    DateLe(b.dateTaken, a.dateTaken)
  }

  lemma MediaLeTotalPreorder()
    ensures TotalPreorder(MediaLe)
  {
    forall a, b ensures MediaLe(a, b) || MediaLe(b, a) {
      if a.dateTaken.Some? && b.dateTaken.Some? {
        LexLeTotal(a.dateTaken.value, b.dateTaken.value);
      }
    }
    forall a, b, c | MediaLe(a, b) && MediaLe(b, c) ensures MediaLe(a, c) {
      if a.dateTaken.Some? && b.dateTaken.Some? && c.dateTaken.Some? {
        LexLeTrans(c.dateTaken.value, b.dateTaken.value, a.dateTaken.value);
      }
    }
  }

  /** In a sorted list of media files no file comes before one with a later date. */
  lemma NewestFirst(ms: seq<MediaItem>)
    requires Sorted(ms, MediaLe)
    ensures forall i, j :: 0 <= i < j < |ms| ==> DateLe(ms[j].dateTaken, ms[i].dateTaken)
  {
  }

  /** `list_media_files`, given what adb returns for each argument list. */
  method ListMediaFiles(adb: seq<string> -> Output, serial: string, path: string, filter: MediaFilter)
    returns (r: Result<seq<MediaItem>, AppError>)
    ensures var run := RunAdbCommand(adb(ListArgs(serial, path)));
            (run.Err? ==> r == Err(run.error))
            && (run.Ok? ==> r == Ok(SortBy(MediaOf(path, filter, Lines(run.value)), MediaLe)))
    ensures r.Ok? ==> Sorted(r.value, MediaLe)
  {
    var run := RunAdbCommand(adb(ListArgs(serial, path)));
    if run.Err? {
      return Err(run.error);
    }
    var items := CollectMedia(path, filter, Lines(run.value));
    MediaLeTotalPreorder();
    SortBySorted(items, MediaLe);
    r := Ok(SortBy(items, MediaLe));
  }

  /** The loop of `list_media_files`: one item pushed for each line that describes a wanted file. */
  method CollectMedia(path: string, filter: MediaFilter, lines: seq<string>) returns (items: seq<MediaItem>)
    ensures items == MediaOf(path, filter, lines)
  {
    items := [];
    var i := 0;
    while i < |lines|
      invariant 0 <= i <= |lines|
      invariant items == MediaOf(path, filter, lines[..i])
    {
      items := PushMediaOfLine(path, filter, lines, i, items);
      i := i + 1;
    }
    assert lines[..i] == lines;
  }

  /** One pass of the loop of `list_media_files`: the media file line `i` describes, if any, pushed. */
  method PushMediaOfLine(path: string, filter: MediaFilter, lines: seq<string>, i: nat, items: seq<MediaItem>)
    returns (next: seq<MediaItem>)
    requires i < |lines| && items == MediaOf(path, filter, lines[..i])
    ensures next == MediaOf(path, filter, lines[..i + 1])
  {
    var item := ParseMediaLine(path, filter, lines[i]);
    FilterMapStep(lines, i, MediaParser(path, filter), item);
    next := items;
    if item.Some? {
      next := next + [item.value];
    }
  }
  /** The body of the loop of `list_media_files` for one line, with its early `continue`s. */
  method ParseMediaLine(path: string, filter: MediaFilter, raw: string) returns (item: Option<MediaItem>)
    ensures item == MediaFromLine(path, filter, raw)
  {
    var line := Trim(raw);
    if line == [] || StartsWith(line, "total") {
      return None;
    }
    var parts := SplitWhitespace(line);
    if |parts| < 7 {
      return None;
    }
    if parts[0][0] != '-' {
      return None;
    }
    var sizeBytes := ParseU64(parts[4]).UnwrapOr(0);
    var datePart := parts[5];
    var timePart := parts[6];
    var dateTaken := if datePart != [] && timePart != [] then Some(datePart + " " + timePart) else None;
    if |parts| <= 7 {
      return None;
    }
    var name := Join(parts[7..], " ");
    var filePath := if EndsWith(path, "/") then path + name else path + "/" + name;
    var extension := ExtensionOf(name);
    var mediaType := MediaTypeOf(extension);
    if mediaType.None? {
      return None;
    }
    if !Accepts(filter, mediaType.value) {
      return None;
    }
    return Some(MediaItem(filePath, name, mediaType.value, sizeBytes, None, None, None, dateTaken, None));
  }
}
