/**
 * Moving media off the device (src-tauri/src/services/media_service.rs):
 * pulling one file or a batch, asking the device for a file's size, reading a
 * local file back as a `data:` URL, and the pure first steps of a thumbnail
 * request (its cache name and the device paths it is looked up under).
 */
module MediaFiles {
  import opened Wrappers
  import opened Text
  import opened Models
  import opened Errors
  import opened Exec
  import opened Numbers
  import opened MediaText
  import opened Base64
  import Paths
  import MediaListing

  // ---------------------------------------------------------------------------
  // Pulling files
  // ---------------------------------------------------------------------------

  /** The adb arguments that copy `remotePath` on the device to `localPath`. */
  function PullArgs(serial: string, remotePath: string, localPath: string): seq<string> {
    ["-s", serial, "pull", remotePath, localPath]
  }

  /**
   * `pull_media_file`: the file keeps its name in `localDest`; the local path
   * is returned once adb has copied it there.
   */
  function PullMediaFile(adb: seq<string> -> Output, serial: string, remotePath: string, localDest: string)
    : (r: Result<string, AppError>)
    ensures Paths.FileName(remotePath).None? ==> r == Err(InvalidPath("Invalid remote path"))
    ensures Paths.FileName(remotePath).Some? ==>
              var localPath := Paths.Join(localDest, Paths.FileName(remotePath).value);
              var run := RunAdbCommand(adb(PullArgs(serial, remotePath, localPath)));
              (r.Ok? <==> run.Ok?) && (r.Ok? ==> r.value == localPath) && (r.Err? ==> r.error == run.error)
    ensures r.Ok? ==> Paths.FileName(r.value) == Paths.FileName(remotePath) && StartsWith(r.value, localDest)
  {
    match Paths.FileName(remotePath)
    case None => Err(InvalidPath("Invalid remote path"))
    case Some(name) =>
      var localPath := Paths.Join(localDest, name);
      Paths.FileNameOfJoin(localDest, name);
      match RunAdbCommand(adb(PullArgs(serial, remotePath, localPath)))
      case Err(e) => Err(e)
      case Ok(_) => Ok(localPath)
  }

  /** The adb arguments that print the size in bytes of `path` on the device. */
  function StatArgs(serial: string, path: string): seq<string> {
    ["-s", serial, "shell", "stat", "-c", "%s", path]
  }

  /** `get_file_size`: the trimmed output of `stat -c %s` read as a `u64`. */
  function GetFileSize(adb: seq<string> -> Output, serial: string, path: string): (r: Result<nat, AppError>)
    ensures var run := RunAdbCommand(adb(StatArgs(serial, path)));
            (run.Err? ==> r == Err(run.error))
            && (run.Ok? ==> (r.Ok? <==> ParseU64(Trim(run.value)).Some?))
            && (r.Ok? ==> run.Ok? && Some(r.value) == ParseU64(Trim(run.value)))
            && (run.Ok? && r.Err? ==> r.error == AdbExecutionFailed("Failed to parse file size for " + path))
    ensures r.Ok? ==> r.value < U64Limit
  {
    match RunAdbCommand(adb(StatArgs(serial, path)))
    case Err(e) => Err(e)
    case Ok(out) =>
      match ParseU64(Trim(out))
      case None => Err(AdbExecutionFailed("Failed to parse file size for " + path))
      case Some(n) => Ok(n)
  }

  /** A line of text without whitespace at either end, and its line break, trim to the text. */
  lemma TrimLine(s: string)
    requires s != [] && !IsWhitespace(s[0]) && !IsWhitespace(s[|s| - 1])
    ensures Trim(s + "\n") == s
  {
    var t := s + "\n";
    assert TrimStartBy(t, IsWhitespace) == t;
    assert t[..|t| - 1] == s && IsWhitespace(t[|t| - 1]);
    assert TrimEndBy(s, IsWhitespace) == s;
    assert TrimEndBy(t, IsWhitespace) == TrimEndBy(s, IsWhitespace);
  }

  /** When `stat` prints a size, `get_file_size` returns exactly that size. */
  lemma FileSizeOfStat(adb: seq<string> -> Output, serial: string, path: string, n: nat, stderr: string)
    requires n < U64Limit
    requires adb(StatArgs(serial, path)) == Exited(true, Decimal(n) + "\n", stderr)
    ensures GetFileSize(adb, serial, path) == Ok(n)
  {
    var d := Decimal(n);
    TrimLine(d);
    ParseDecimal(n);
  }

  /** The entry `pull_media_files_batch` records for one path. */
  function TransferResultOf(adb: seq<string> -> Output, serial: string, remotePath: string, localDest: string)
    : (t: MediaTransferResult)
    ensures t.sourcePath == remotePath
    ensures t.success <==> t.destPath.Some?
    ensures t.success <==> t.error.None?
    ensures var pulled := PullMediaFile(adb, serial, remotePath, localDest);
            (t.success <==> pulled.Ok?)
            && (pulled.Ok? ==> t.destPath == Some(pulled.value))
            && (pulled.Err? ==> t.error == Some(Display(pulled.error)))
    ensures var size := GetFileSize(adb, serial, remotePath);
            t.sizeBytes == if size.Ok? then size.value else 0
  {
    var sizeBytes := GetFileSize(adb, serial, remotePath).UnwrapOr(0);
    match PullMediaFile(adb, serial, remotePath, localDest)
    case Ok(destPath) => MediaTransferResult(remotePath, Some(destPath), true, None, sizeBytes)
    case Err(e) => MediaTransferResult(remotePath, None, false, Some(Display(e)), sizeBytes)
  }

  /**
   * `pull_media_files_batch`: one entry per requested path, in order; a failed
   * pull is recorded and the batch goes on.
   */
  method PullMediaFilesBatch(adb: seq<string> -> Output, serial: string, remotePaths: seq<string>, localDest: string)
    returns (results: seq<MediaTransferResult>)
    ensures |results| == |remotePaths|
    ensures forall i :: 0 <= i < |results| ==> results[i] == TransferResultOf(adb, serial, remotePaths[i], localDest)
    ensures forall i :: 0 <= i < |results| ==>
              results[i].sourcePath == remotePaths[i]
              && (results[i].success <==> results[i].destPath.Some?)
              && (results[i].success <==> results[i].error.None?)
  {
    ghost var pull := p => TransferResultOf(adb, serial, p, localDest);
    results := [];
    for i := 0 to |remotePaths|
      invariant results == Map(remotePaths[..i], pull)
    {
      var result := PullOne(adb, serial, remotePaths[i], localDest);
      MapStep(remotePaths, i, pull);
      results := results + [result];
    }
    assert remotePaths[..|remotePaths|] == remotePaths;
  }

  /** `f` applied to every element, in order. */
  function Map<T, U>(xs: seq<T>, f: T -> U): (ys: seq<U>)
    ensures |ys| == |xs|
    ensures forall i :: 0 <= i < |xs| ==> ys[i] == f(xs[i])
  {
    seq(|xs|, i requires 0 <= i < |xs| => f(xs[i]))
  }

  /** Mapping one more element appends its image. */
  lemma MapStep<T, U>(xs: seq<T>, i: nat, f: T -> U)
    requires i < |xs|
    ensures Map(xs[..i + 1], f) == Map(xs[..i], f) + [f(xs[i])]
  {
  }

  /** The body of that loop: the size first, then the pull, recorded either way. */
  method PullOne(adb: seq<string> -> Output, serial: string, remotePath: string, localDest: string)
    returns (result: MediaTransferResult)
    ensures result == TransferResultOf(adb, serial, remotePath, localDest)
  {
    var sizeBytes := GetFileSize(adb, serial, remotePath).UnwrapOr(0);
    var pulled := PullMediaFile(adb, serial, remotePath, localDest);
    if pulled.Ok? {
      result := MediaTransferResult(remotePath, Some(pulled.value), true, None, sizeBytes);
    } else {
      result := MediaTransferResult(remotePath, None, false, Some(Display(pulled.error)), sizeBytes);
    }
  }

  // ---------------------------------------------------------------------------
  // Data URLs
  // ---------------------------------------------------------------------------

  /** The media type `read_file_as_base64` declares, from the lower-cased extension ("jpg" when there is none). */
  function MimeType(path: string): (m: string)
    ensures m == "image/jpeg" || m == "image/png" || m == "image/gif" || m == "image/webp"
    ensures Paths.Extension(path).None? ==> m == "image/jpeg"
    ensures ',' !in m
  {
    var ext := ToLower(Paths.Extension(path).UnwrapOr("jpg"));
    if ext == "jpg" || ext == "jpeg" then "image/jpeg"
    else if ext == "png" then "image/png"
    else if ext == "gif" then "image/gif"
    else if ext == "webp" then "image/webp"
    else "image/jpeg"
  }

  /** A `data:` URL (RFC 2397) carrying `data` in base64 with the media type `mime`. */
  function DataUrl(mime: string, data: seq<Byte>): string {
    "data:" + mime + ";base64," + Encode(data)
  }

  /**
   * Reading of a base64 `data:` URL (RFC 2397): the media type before
   * ";base64", and the decoded bytes after the first comma.
   */
  function ParseDataUrl(url: string): Option<(string, seq<Byte>)> {
    if !StartsWith(url, "data:") then None
    else
      match SplitOnce(url[5..], ',')
      case None => None
      case Some((meta, payload)) =>
        if !EndsWith(meta, ";base64") then None
        else
          match Decode(payload)
          case None => None
          case Some(bytes) => Some((meta[..|meta| - 7], bytes))
  }

  /** A `data:` URL reads back as its media type and its bytes. */
  lemma DataUrlRoundTrip(mime: string, data: seq<Byte>)
    requires ',' !in mime
    ensures ParseDataUrl(DataUrl(mime, data)) == Some((mime, data))
  {
    var url := DataUrl(mime, data);
    var meta := mime + ";base64";
    assert url[..5] == "data:";
    assert url[5..] == meta + [','] + Encode(data);
    assert ',' !in meta by {
      forall i | 0 <= i < |meta| ensures meta[i] != ',' {
        if i < |mime| {
          assert meta[i] == mime[i];
          assert mime[i] in mime;
        }
      }
    }
    SplitOnceAt(meta, Encode(data), ',');
    assert meta[|meta| - 7..] == ";base64";
    assert meta[..|meta| - 7] == mime;
    DecodeEncode(data);
  }

  /**
   * `read_file_as_base64`, given the outcome of reading the file: an `IoError`
   * if it could not be read, otherwise a `data:` URL that reads back as the
   * file's media type and its exact contents.
   */
  function ReadFileAsBase64(path: string, read: Result<seq<Byte>, string>): (r: Result<string, AppError>)
    ensures read.Err? ==> r == Err(IoError("Failed to read file: " + read.error))
    ensures read.Ok? ==> r.Ok? && ParseDataUrl(r.value) == Some((MimeType(path), read.value))
  {
    match read
    case Err(e) => Err(IoError("Failed to read file: " + e))
    case Ok(data) =>
      DataUrlRoundTrip(MimeType(path), data);
      Ok(DataUrl(MimeType(path), data))
  }

  // ---------------------------------------------------------------------------
  // Thumbnail requests
  // ---------------------------------------------------------------------------

  /** The cache file name of a thumbnail: `thumb_`, the sanitized file name, `.jpg`. */
  function ThumbName(fileName: string): string {
    "thumb_" + SanitizeFilename(fileName) + ".jpg"
  }

  /** A thumbnail's cache name is one path component, with the extension `jpg`. */
  lemma ThumbNameShape(fileName: string)
    ensures var name := ThumbName(fileName);
            name != [] && name != "." && name != ".." && Paths.NoSeparator(name)
            && Paths.ExtensionOfName(name) == Some("jpg")
  {
    var stem := "thumb_" + SanitizeFilename(fileName);
    var name := ThumbName(fileName);
    assert name == stem + "." + "jpg";
    forall i | 0 <= i < |name| ensures !Paths.IsSeparator(name[i]) {
      if 6 <= i < |stem| {
        assert name[i] == SanitizeFilename(fileName)[i - 6];
      }
    }
    assert name[0] == 't';
    Paths.ExtensionOfNameSplit(stem, "jpg");
  }

  /** Files named with the extension `jpg` are served as `image/jpeg`. */
  lemma MimeTypeJpg(path: string)
    requires Paths.Extension(path) == Some("jpg")
    ensures MimeType(path) == "image/jpeg"
  {
    assert Paths.Extension(path).UnwrapOr("jpg") == "jpg";
    assert ToLower("jpg") == "jpg";
  }

  /**
   * The cached thumbnail lands in the cache folder under its cache name and is
   * served as `image/jpeg`.
   */
  lemma ThumbNameInCache(dir: string, fileName: string)
    ensures Paths.FileName(Paths.Join(dir, ThumbName(fileName))) == Some(ThumbName(fileName))
    ensures Paths.Extension(Paths.Join(dir, ThumbName(fileName))) == Some("jpg")
    ensures MimeType(Paths.Join(dir, ThumbName(fileName))) == "image/jpeg"
  {
    var name := ThumbName(fileName);
    ThumbNameShape(fileName);
    Paths.FileNameOfJoin(dir, name);
    MimeTypeJpg(Paths.Join(dir, name));
  }

  /**
   * The checks before the device is asked depend only on the file name: two
   * remote paths with the same file name are both accepted or both refused,
   * and when accepted share one cache name.
   */
  lemma ThumbNameIgnoresFolder(remote1: string, remote2: string)
    requires Paths.FileName(remote1) == Paths.FileName(remote2)
    ensures PrepareThumbnail(remote1).Ok? <==> PrepareThumbnail(remote2).Ok?
    ensures PrepareThumbnail(remote1).Ok? ==>
              PrepareThumbnail(remote1).value.thumbName == PrepareThumbnail(remote2).value.thumbName
  {
    assert MediaListing.ExtensionOf(remote1) == MediaListing.ExtensionOf(remote2);
  }

  /** Files of one name in two device folders share one cache entry, named after the file. */
  lemma ThumbNameSharedAcrossFolders(dir1: string, dir2: string, fileName: string)
    requires fileName != [] && fileName != "." && fileName != ".." && Paths.NoSeparator(fileName)
    requires (dir1 == [] || dir1[|dir1| - 1] == '/') && (dir2 == [] || dir2[|dir2| - 1] == '/')
    ensures PrepareThumbnail(dir1 + fileName).Ok? <==> PrepareThumbnail(dir2 + fileName).Ok?
    ensures PrepareThumbnail(dir1 + fileName).Ok? ==>
              PrepareThumbnail(dir1 + fileName).value.thumbName == ThumbName(fileName)
              && PrepareThumbnail(dir2 + fileName).value.thumbName == ThumbName(fileName)
  {
    Paths.FileNameOfSegment(dir1, fileName);
    Paths.FileNameOfSegment(dir2, fileName);
    ThumbNameIgnoresFolder(dir1 + fileName, dir2 + fileName);
  }

  /** The device paths a MediaStore id is looked up under: a `/sdcard/` path also under `/storage/emulated/0/`. */
  function PathsToTry(remotePath: string): (ps: seq<string>)
    ensures 1 <= |ps| <= 2 && ps[0] == remotePath
    ensures |ps| == 2 <==> StartsWith(remotePath, SdcardRoot)
  {
    if StartsWith(remotePath, SdcardRoot) then [remotePath, Replace(remotePath, SdcardRoot, StorageRoot)]
    else [remotePath]
  }

  /** A file under `/sdcard/` is looked up under that path and under `/storage/emulated/0/`. */
  lemma PathsToTryRoots(rel: string)
    requires !Contains(rel, SdcardRoot)
    ensures PathsToTry(SdcardRoot + rel) == [SdcardRoot + rel, StorageRoot + rel]
  {
    PrefixOfConcat(SdcardRoot, rel);
    ReplaceLeading(SdcardRoot, rel, StorageRoot);
    ReplaceMissing(rel, SdcardRoot, StorageRoot);
  }

  /** Both candidates for a file under `/sdcard/` name it under one of the two roots, and normalise alike. */
  lemma PathsToTrySdcard(rel: string)
    requires BelowRoot(rel)
    ensures PathsToTry(SdcardRoot + rel) == [SdcardRoot + rel, StorageRoot + rel]
    ensures forall p :: p in PathsToTry(SdcardRoot + rel) ==> NormalizePath(p) == rel
  {
    MissingAfterHead('/', rel, SdcardRoot);
    PathsToTryRoots(rel);
    NormalizeEitherRoot(rel);
    var ps := [SdcardRoot + rel, StorageRoot + rel];
    forall p | p in ps ensures NormalizePath(p) == rel {
      assert p == ps[0] || p == ps[1];
    }
  }

  /** What a thumbnail request needs once its path has been accepted. */
  datatype ThumbnailRequest = ThumbnailRequest(
    fileName: string,
    thumbName: string,
    mediaType: MediaType,
    candidates: seq<string>)

  /**
   * The checks `get_thumbnail` makes before it asks the device, when no
   * cached thumbnail exists: the path needs a file name, and an image or video
   * extension.
   */
  function PrepareThumbnail(remotePath: string): (r: Result<ThumbnailRequest, AppError>)
    ensures Paths.FileName(remotePath).None? ==> r == Err(InvalidPath("Invalid remote path"))
    ensures Paths.FileName(remotePath).Some?
            && MediaListing.MediaTypeOf(MediaListing.ExtensionOf(remotePath)).None?
            ==> r == Err(ThumbnailNotAvailable("Unsupported file type for " + Paths.FileName(remotePath).value))
    ensures r.Ok? ==>
              Some(r.value.fileName) == Paths.FileName(remotePath)
              && r.value.thumbName == ThumbName(r.value.fileName)
              && Some(r.value.mediaType) == MediaListing.MediaTypeOf(MediaListing.ExtensionOf(remotePath))
              && r.value.candidates == PathsToTry(remotePath)
  {
    match Paths.FileName(remotePath)
    case None => Err(InvalidPath("Invalid remote path"))
    case Some(fileName) =>
      match MediaListing.MediaTypeOf(MediaListing.ExtensionOf(remotePath))
      case None => Err(ThumbnailNotAvailable("Unsupported file type for " + fileName))
      case Some(t) => Ok(ThumbnailRequest(fileName, ThumbName(fileName), t, PathsToTry(remotePath)))
  }
}
