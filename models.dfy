/** The domain records shared by the services (src-tauri/src/domain/models.rs). */
module Models {
  import opened Wrappers
  import opened Text

  /** Connection state of a device, as reported by `adb devices`. */
  datatype DeviceState = Ready | Unauthorized | Offline | Unknown

  /** The word `adb devices` prints for a state; `Unknown` has none. */
  function AdbStateWord(st: DeviceState): Option<string> {
    match st
    case Ready => Some("device")
    case Unauthorized => Some("unauthorized")
    case Offline => Some("offline")
    case Unknown => None
  }

  /**
   * `DeviceState::from(&str)`: the adb word, compared after lower-casing.
   * Lower-casing is ASCII here; for these three words that loses nothing,
   * since no non-ASCII character lower-cases to one of their letters.
   */
  function DeviceStateFrom(s: string): (st: DeviceState)
    ensures st == Ready <==> EqIgnoreAsciiCase(s, "device")
    ensures st == Unauthorized <==> EqIgnoreAsciiCase(s, "unauthorized")
    ensures st == Offline <==> EqIgnoreAsciiCase(s, "offline")
  {
    var lower := ToLower(s);
    assert ToLower("device") == "device";
    assert ToLower("unauthorized") == "unauthorized";
    assert ToLower("offline") == "offline";
    if lower == "device" then Ready
    else if lower == "unauthorized" then Unauthorized
    else if lower == "offline" then Offline
    else Unknown
  }

  /** A connected Android device. */
  datatype Device = Device(
    serial: string,
    state: DeviceState,
    model: Option<string>,
    manufacturer: Option<string>,
    androidVersion: Option<string>)

  /** `Device::new`. */
  function NewDevice(serial: string, state: DeviceState): (d: Device)
    ensures d.serial == serial && d.state == state
    ensures d.model == None && d.manufacturer == None && d.androidVersion == None
  {
    Device(serial, state, None, None, None)
  }

  /** An active mirror session (the `u32` process id is an unbounded natural here). */
  datatype MirrorSession = MirrorSession(deviceSerial: string, processId: nat, startedAt: string)

  /** Application settings. */
  datatype Settings = Settings(
    adbPath: Option<string>,
    adbResolvedPath: Option<string>,
    adbAvailable: bool,
    scrcpyPath: Option<string>,
    scrcpyResolvedPath: Option<string>,
    scrcpyAvailable: bool,
    defaultDeviceDir: string,
    ffmpegPath: Option<string>,
    ffmpegResolvedPath: Option<string>,
    ffmpegAvailable: bool)

  const DefaultDeviceDir: string := "Download/GesuBridge"

  /** `Settings::new`: nothing configured or detected yet. */
  function NewSettings(): (s: Settings)
    ensures s.adbPath.None? && s.adbResolvedPath.None? && !s.adbAvailable
    ensures s.scrcpyPath.None? && s.scrcpyResolvedPath.None? && !s.scrcpyAvailable
    ensures s.ffmpegPath.None? && s.ffmpegResolvedPath.None? && !s.ffmpegAvailable
    ensures s.defaultDeviceDir == "Download/GesuBridge"
  {
    Settings(None, None, false, None, None, false, DefaultDeviceDir, None, None, false)
  }

  datatype TransferStatus = Queued | Transferring | Complete | Failed | Cancelled

  /** One file transfer (sizes are `u64` in the source, unbounded naturals here). */
  datatype TransferItem = TransferItem(
    id: string,
    fileName: string,
    sourcePath: string,
    destPath: string,
    sizeBytes: nat,
    transferredBytes: nat,
    status: TransferStatus,
    error: Option<string>,
    startedAt: string)

  /** A folder on the device. */
  datatype FolderInfo = FolderInfo(name: string, path: string, itemCount: Option<nat>, isMediaFolder: bool)

  datatype MediaType = Image | Video

  /** A media file on the device. */
  datatype MediaItem = MediaItem(
    path: string,
    name: string,
    mediaType: MediaType,
    sizeBytes: nat,
    width: Option<nat>,
    height: Option<nat>,
    durationMs: Option<nat>,
    dateTaken: Option<string>,
    thumbnailUrl: Option<string>)

  datatype MediaFilter = All | Images | Videos

  /** `MediaFilter::default()`. */
  function DefaultMediaFilter(): (f: MediaFilter)
    ensures f == All
  {
    All
  }

  /** Outcome of pulling one media file. */
  datatype MediaTransferResult = MediaTransferResult(
    sourcePath: string,
    destPath: Option<string>,
    success: bool,
    error: Option<string>,
    sizeBytes: nat)

  // ---------------------------------------------------------------------------

  /** Every adb word is read back as the state it stands for, whatever its case. */
  lemma DeviceStateWordRoundTrip(st: DeviceState, s: string)
    requires AdbStateWord(st).Some?
    requires EqIgnoreAsciiCase(s, AdbStateWord(st).value)
    ensures DeviceStateFrom(s) == st
  {
  }

  /** Anything that is not one of the three words, in any case, is `Unknown`. */
  lemma DeviceStateUnknown(s: string)
    requires forall st :: AdbStateWord(st).Some? ==> !EqIgnoreAsciiCase(s, AdbStateWord(st).value)
    ensures DeviceStateFrom(s) == Unknown
  {
    assert AdbStateWord(Ready).Some? && AdbStateWord(Unauthorized).Some? && AdbStateWord(Offline).Some?;
  }
}
