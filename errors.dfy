/** Application errors, their `Display` text and user guidance (src-tauri/src/domain/errors.rs). */
module Errors {
  import opened Wrappers

  /** Every variant carries a message, here the shared field `msg`. */
  datatype AppError =
    | AdbNotFound(msg: string)
    | AdbExecutionFailed(msg: string)
    | InvalidPath(msg: string)
    | IoError(msg: string)
    | SettingsError(msg: string)
    | DeviceNotFound(msg: string)
    | ScrcpyNotFound(msg: string)
    | MirrorError(msg: string)
    | TransferError(msg: string)
    | ThumbnailNotAvailable(msg: string)

  /** The label of a variant, the text `Display` puts before ": ". */
  function Label(e: AppError): string {
    match e
    case AdbNotFound(_) => "ADB not found"
    case AdbExecutionFailed(_) => "ADB execution failed"
    case InvalidPath(_) => "Invalid path"
    case IoError(_) => "IO error"
    case SettingsError(_) => "Settings error"
    case DeviceNotFound(_) => "Device not found"
    case ScrcpyNotFound(_) => "scrcpy not found"
    case MirrorError(_) => "Mirror error"
    case TransferError(_) => "Transfer error"
    case ThumbnailNotAvailable(_) => "Thumbnail not available"
  }

  /** `impl Display for AppError`. */
  function Display(e: AppError): string {
    match e
    case AdbNotFound(m) => "ADB not found: " + m
    case AdbExecutionFailed(m) => "ADB execution failed: " + m
    case InvalidPath(m) => "Invalid path: " + m
    case IoError(m) => "IO error: " + m
    case SettingsError(m) => "Settings error: " + m
    case DeviceNotFound(m) => "Device not found: " + m
    case ScrcpyNotFound(m) => "scrcpy not found: " + m
    case MirrorError(m) => "Mirror error: " + m
    case TransferError(m) => "Transfer error: " + m
    case ThumbnailNotAvailable(m) => "Thumbnail not available: " + m
  }

  /**
   * Reads an error back from its `Display` text, choosing among the labels
   * by the first character.
   */
  function ParseDisplay(s: string): Option<AppError> {
    if s == [] then None
    else if s[0] == 'A' then
      if "ADB not found: " <= s then Some(AdbNotFound(s[15..]))
      else if "ADB execution failed: " <= s then Some(AdbExecutionFailed(s[22..]))
      else None
    else if s[0] == 'I' then
      if "Invalid path: " <= s then Some(InvalidPath(s[14..]))
      else if "IO error: " <= s then Some(IoError(s[10..]))
      else None
    else if s[0] == 'S' then
      if "Settings error: " <= s then Some(SettingsError(s[16..])) else None
    else if s[0] == 'D' then
      if "Device not found: " <= s then Some(DeviceNotFound(s[18..])) else None
    else if s[0] == 's' then
      if "scrcpy not found: " <= s then Some(ScrcpyNotFound(s[18..])) else None
    else if s[0] == 'M' then
      if "Mirror error: " <= s then Some(MirrorError(s[14..])) else None
    else if s[0] == 'T' then
      if "Transfer error: " <= s then Some(TransferError(s[16..]))
      else if "Thumbnail not available: " <= s then Some(ThumbnailNotAvailable(s[25..]))
      else None
    else None
  }

  /** `From<std::io::Error>`: the error's text becomes an `IoError`. */
  function FromIoError(text: string): (e: AppError)
    ensures e.IoError? && e.msg == text
    ensures Display(e) == "IO error: " + text
  {
    IoError(text)
  }

  /** `AppError::user_guidance`. */
  function UserGuidance(e: AppError): string
  {
    match e
    case AdbNotFound(_) => "Install Android SDK Platform Tools or set the ADB path manually in Settings."
    case AdbExecutionFailed(_) => "Check if ADB is configured correctly and the device is connected."
    case InvalidPath(_) => "The specified path does not exist or is not accessible."
    case IoError(_) => "A file system operation failed. Check permissions."
    case SettingsError(_) => "Failed to save or load settings. Try restarting the app."
    case DeviceNotFound(_) => "No device found with this serial. Ensure cable is connected and USB debugging is enabled."
    case ScrcpyNotFound(_) => "Install scrcpy or set the scrcpy path manually in Settings."
    case MirrorError(_) => "Mirror operation failed. Ensure device is connected and authorized."
    case TransferError(_) => "File transfer failed. Check device connection and storage permissions."
    case ThumbnailNotAvailable(_) => "Thumbnail preview not available for this media file."
  }

  /** The two errors are the same variant, whatever their messages. */
  predicate SameVariant(a: AppError, b: AppError) {
    a.AdbNotFound? == b.AdbNotFound? && a.AdbExecutionFailed? == b.AdbExecutionFailed?
    && a.InvalidPath? == b.InvalidPath? && a.IoError? == b.IoError?
    && a.SettingsError? == b.SettingsError? && a.DeviceNotFound? == b.DeviceNotFound?
    && a.ScrcpyNotFound? == b.ScrcpyNotFound? && a.MirrorError? == b.MirrorError?
    && a.TransferError? == b.TransferError? && a.ThumbnailNotAvailable? == b.ThumbnailNotAvailable?
  }

  // ---------------------------------------------------------------------------

  /** The message after a label is read back by dropping the label. */
  lemma LabelledRead(tag: string, m: string)
    ensures tag <= tag + m && (tag + m)[|tag|..] == m
  {
  }

  /** `Display` is the variant's label, ": ", and the message verbatim at the end. */
  lemma DisplayShape(e: AppError)
    ensures Display(e) == Label(e) + ": " + e.msg
    ensures |e.msg| <= |Display(e)| && Display(e)[|Display(e)| - |e.msg|..] == e.msg
  {
  }

  /** The text `Display` produces determines the error: variant and message. */
  lemma DisplayRoundTrip(e: AppError)
    ensures ParseDisplay(Display(e)) == Some(e)
  {
    if e.AdbNotFound? || e.AdbExecutionFailed? || e.InvalidPath? || e.IoError? {
      AdbOrPathRoundTrip(e);
    } else if e.SettingsError? || e.DeviceNotFound? || e.ScrcpyNotFound? {
      SetupRoundTrip(e);
    } else {
      SessionRoundTrip(e);
    }
  }

  /** `DisplayRoundTrip` for the errors whose labels start with `A` or `I`. */
  lemma AdbOrPathRoundTrip(e: AppError)
    requires e.AdbNotFound? || e.AdbExecutionFailed? || e.InvalidPath? || e.IoError?
    ensures ParseDisplay(Display(e)) == Some(e)
  {
    var s := Display(e);
    var m := e.msg;
    match e
    case AdbNotFound(_) =>
      LabelledRead("ADB not found: ", m);
    case AdbExecutionFailed(_) =>
      LabelledRead("ADB execution failed: ", m);
      assert s[4] == 'e';
    case InvalidPath(_) =>
      LabelledRead("Invalid path: ", m);
    case IoError(_) =>
      LabelledRead("IO error: ", m);
      assert s[1] == 'O';
  }

  /** `DisplayRoundTrip` for the errors of settings, devices and tools. */
  lemma SetupRoundTrip(e: AppError)
    requires e.SettingsError? || e.DeviceNotFound? || e.ScrcpyNotFound?
    ensures ParseDisplay(Display(e)) == Some(e)
  {
    var m := e.msg;
    match e
    case SettingsError(_) =>
      LabelledRead("Settings error: ", m);
    case DeviceNotFound(_) =>
      LabelledRead("Device not found: ", m);
    case ScrcpyNotFound(_) =>
      LabelledRead("scrcpy not found: ", m);
  }

  /** `DisplayRoundTrip` for the errors of mirroring, transfers and thumbnails. */
  lemma SessionRoundTrip(e: AppError)
    requires e.MirrorError? || e.TransferError? || e.ThumbnailNotAvailable?
    ensures ParseDisplay(Display(e)) == Some(e)
  {
    var s := Display(e);
    var m := e.msg;
    match e
    case MirrorError(_) =>
      LabelledRead("Mirror error: ", m);
    case TransferError(_) =>
      LabelledRead("Transfer error: ", m);
    case ThumbnailNotAvailable(_) =>
      LabelledRead("Thumbnail not available: ", m);
      assert s[1] == 'h';
  }

  /** Distinct errors never render to the same text. */
  lemma DisplayInjective(a: AppError, b: AppError)
    requires Display(a) == Display(b)
    ensures a == b
  {
    DisplayRoundTrip(a);
    DisplayRoundTrip(b);
  }

  /** The guidance depends on the variant only, never on the message. */
  lemma GuidanceIgnoresMessage(a: AppError, b: AppError)
    requires SameVariant(a, b)
    ensures UserGuidance(a) == UserGuidance(b)
  {
  }
}
