/**
 * Screen and camera mirroring sessions (src-tauri/src/services/scrcpy_service.rs).
 *
 * The service keeps two independent registries from device serial to the
 * scrcpy child process mirroring it. Spawning, killing and polling a child
 * are done by the operating system; the model receives their outcomes as
 * parameters (`SpawnOutcome`, `KillOutcome`, a `try_wait` probe).
 */
module Scrcpy {
  import opened Wrappers
  import opened Text
  import opened Models
  import opened Errors

  /** A scrcpy child process held by a registry: its pid and the arguments it was started with. */
  datatype Child = Child(pid: nat, argv: seq<string>)

  /** What `Command::spawn` produced. */
  datatype SpawnOutcome = Spawned(pid: nat) | SpawnFailed(reason: string)

  /** What `Child::kill` produced. */
  datatype KillOutcome = Killed | KillFailed(reason: string)

  /** What `Child::try_wait` reports: `Ok(None)`, `Ok(Some(status))` or `Err(_)`. */
  datatype WaitStatus = StillRunning | HasExited | WaitFailed

  /** Which of the two registries. */
  datatype SessionKind = Screen | Camera

  // ---------------------------------------------------------------------------
  // Argument vectors
  // ---------------------------------------------------------------------------

  /** The arguments of a screen mirror: the device, then "--turn-screen-off" when asked for. */
  function MirrorArgs(serial: string, screenOff: bool): (argv: seq<string>)
    ensures |argv| == if screenOff then 3 else 2
    ensures argv[0] == "-s" && argv[1] == serial
    ensures screenOff ==> argv[2] == "--turn-screen-off"
  {
    ["-s", serial] + (if screenOff then ["--turn-screen-off"] else [])
  }

  /** The rotation a camera mirror asks for: 270 for the front camera held upright, 90 for any other upright camera, none otherwise. */
  function OrientationArgs(orientation: string, facing: string): (argv: seq<string>)
    ensures orientation != "portrait" <==> argv == []
    ensures orientation == "portrait" && facing == "front" ==> argv == ["--orientation=270"]
    ensures orientation == "portrait" && facing != "front" ==> argv == ["--orientation=90"]
  {
    if orientation == "portrait" then
      if facing == "front" then ["--orientation=270"] else ["--orientation=90"]
    else []
  }

  /** The arguments of a camera mirror. */
  function CameraArgs(serial: string, facing: string, size: string, noAudio: bool, orientation: string): (argv: seq<string>)
    ensures |argv| >= 4
    ensures argv[..4] == ["-s", serial, "--video-source=camera", "--camera-facing=" + facing]
  {
    ["-s", serial, "--video-source=camera", "--camera-facing=" + facing]
    + (if size != [] then ["--camera-size=" + size] else [])
    + (if noAudio then ["--no-audio"] else [])
    + OrientationArgs(orientation, facing)
  }

  /** The options scrcpy reads from a command line (the ones the service passes). */
  datatype ScrcpyOptions = ScrcpyOptions(
    serial: Option<string>,
    cameraSource: bool,
    facing: Option<string>,
    size: Option<string>,
    noAudio: bool,
    orientation: Option<string>,
    screenOff: bool)

  const NoOptions := ScrcpyOptions(None, false, None, None, false, None, false)

  /**
   * How scrcpy reads its arguments, left to right: "-s" takes the next word
   * as the serial, `--key=value` flags set their option, later flags win.
   */
  function ReadArgs(argv: seq<string>, o: ScrcpyOptions): ScrcpyOptions
    decreases |argv|
  {
    if argv == [] then o
    else
      var a := argv[0];
      if a == "-s" && |argv| >= 2 then ReadArgs(argv[2..], o.(serial := Some(argv[1])))
      else if a == "--video-source=camera" then ReadArgs(argv[1..], o.(cameraSource := true))
      else if "--camera-facing=" <= a then ReadArgs(argv[1..], o.(facing := Some(a[16..])))
      else if "--camera-size=" <= a then ReadArgs(argv[1..], o.(size := Some(a[14..])))
      else if a == "--no-audio" then ReadArgs(argv[1..], o.(noAudio := true))
      else if "--orientation=" <= a then ReadArgs(argv[1..], o.(orientation := Some(a[14..])))
      else if a == "--turn-screen-off" then ReadArgs(argv[1..], o.(screenOff := true))
      else ReadArgs(argv[1..], o)
  }

  /** The rotation scrcpy is asked for, in degrees as text. */
  function ExpectedOrientation(orientation: string, facing: string): Option<string> {
    if orientation != "portrait" then None
    else if facing == "front" then Some("270") else Some("90")
  }

  lemma ReadSerial(serial: string, rest: seq<string>, o: ScrcpyOptions)
    ensures ReadArgs(["-s", serial] + rest, o) == ReadArgs(rest, o.(serial := Some(serial)))
  {
    assert (["-s", serial] + rest)[2..] == rest;
  }

  lemma ReadCameraSource(rest: seq<string>, o: ScrcpyOptions)
    ensures ReadArgs(["--video-source=camera"] + rest, o) == ReadArgs(rest, o.(cameraSource := true))
  {
    assert (["--video-source=camera"] + rest)[1..] == rest;
  }

  lemma ReadFacing(facing: string, rest: seq<string>, o: ScrcpyOptions)
    ensures ReadArgs(["--camera-facing=" + facing] + rest, o) == ReadArgs(rest, o.(facing := Some(facing)))
  {
    var a := "--camera-facing=" + facing;
    assert (["--camera-facing=" + facing] + rest)[1..] == rest;
    assert a[2] == 'c' && a[..16] == "--camera-facing=" && a[16..] == facing;
  }

  lemma ReadSize(size: string, rest: seq<string>, o: ScrcpyOptions)
    ensures ReadArgs(["--camera-size=" + size] + rest, o) == ReadArgs(rest, o.(size := Some(size)))
  {
    var a := "--camera-size=" + size;
    assert (["--camera-size=" + size] + rest)[1..] == rest;
    assert a[2] == 'c' && a[9] == 's' && a[14..] == size;
  }

  lemma ReadNoAudio(rest: seq<string>, o: ScrcpyOptions)
    ensures ReadArgs(["--no-audio"] + rest, o) == ReadArgs(rest, o.(noAudio := true))
  {
    var a := "--no-audio";
    assert (["--no-audio"] + rest)[1..] == rest;
    assert a[2] == 'n';
  }

  lemma ReadOrientation(degrees: string, o: ScrcpyOptions)
    ensures ReadArgs(["--orientation=" + degrees], o) == o.(orientation := Some(degrees))
  {
    var a := "--orientation=" + degrees;
    var argv: seq<string> := [a];
    assert argv[1..] == [];
    assert a[2] == 'o' && a[14..] == degrees;
  }

  lemma ReadScreenOff(o: ScrcpyOptions)
    ensures ReadArgs(["--turn-screen-off"], o) == o.(screenOff := true)
  {
    var a := "--turn-screen-off";
    var argv: seq<string> := [a];
    assert argv[1..] == [];
    assert a[2] == 't';
  }

  /** scrcpy reads back exactly the device and the screen-off choice of a screen mirror. */
  lemma {:induction false} MirrorArgsRead(serial: string, screenOff: bool)
    ensures ReadArgs(MirrorArgs(serial, screenOff), NoOptions)
         == NoOptions.(serial := Some(serial), screenOff := screenOff)
  {
    var rest: seq<string> := if screenOff then ["--turn-screen-off"] else [];
    assert MirrorArgs(serial, screenOff) == ["-s", serial] + rest;
    ReadSerial(serial, rest, NoOptions);
    if screenOff {
      ReadScreenOff(NoOptions.(serial := Some(serial)));
    }
  }

  /** The rotation flag, if any, is read back as the rotation the orientation and facing call for. */
  lemma OrientationRead(orientation: string, facing: string, o: ScrcpyOptions)
    requires o.orientation == None
    ensures ReadArgs(OrientationArgs(orientation, facing), o) == o.(orientation := ExpectedOrientation(orientation, facing))
  {
    if orientation == "portrait" {
      var degrees := if facing == "front" then "270" else "90";
      assert "--orientation=" + "270" == "--orientation=270";
      assert "--orientation=" + "90" == "--orientation=90";
      assert OrientationArgs(orientation, facing) == ["--orientation=" + degrees];
      ReadOrientation(degrees, o);
    }
  }

  /** The flags after the facing: size if given, audio choice, rotation. */
  lemma {:induction false} CameraTailRead(facing: string, size: string, noAudio: bool, orientation: string, o: ScrcpyOptions)
    requires o.size == None && !o.noAudio && o.orientation == None
    ensures ReadArgs((if size != [] then ["--camera-size=" + size] else [])
                     + (if noAudio then ["--no-audio"] else [])
                     + OrientationArgs(orientation, facing), o)
         == o.(size := if size != [] then Some(size) else None, noAudio := noAudio,
               orientation := ExpectedOrientation(orientation, facing))
  {
    var sizeArgs := if size != [] then ["--camera-size=" + size] else [];
    var audioArgs := if noAudio then ["--no-audio"] else [];
    var orientArgs := OrientationArgs(orientation, facing);
    var o4 := if size != [] then o.(size := Some(size)) else o;
    var o5 := o4.(noAudio := noAudio);
    if size != [] {
      assert sizeArgs + audioArgs + orientArgs == ["--camera-size=" + size] + (audioArgs + orientArgs);
      ReadSize(size, audioArgs + orientArgs, o);
    } else {
      assert sizeArgs + audioArgs + orientArgs == audioArgs + orientArgs;
    }
    if noAudio {
      assert audioArgs + orientArgs == ["--no-audio"] + orientArgs;
      ReadNoAudio(orientArgs, o4);
    } else {
      assert audioArgs + orientArgs == orientArgs;
    }
    OrientationRead(orientation, facing, o5);
  }

  /** scrcpy reads back the device, the camera source, the facing, the size when one is given, the audio choice and the rotation of a camera mirror. */
  lemma {:induction false} CameraArgsRead(serial: string, facing: string, size: string, noAudio: bool, orientation: string)
    ensures ReadArgs(CameraArgs(serial, facing, size, noAudio, orientation), NoOptions)
         == ScrcpyOptions(Some(serial), true, Some(facing),
                          if size != [] then Some(size) else None,
                          noAudio, ExpectedOrientation(orientation, facing), false)
  {
    var tail := (if size != [] then ["--camera-size=" + size] else [])
                + (if noAudio then ["--no-audio"] else [])
                + OrientationArgs(orientation, facing);
    var o1 := NoOptions.(serial := Some(serial));
    var o2 := o1.(cameraSource := true);
    var o3 := o2.(facing := Some(facing));
    assert CameraArgs(serial, facing, size, noAudio, orientation)
        == ["-s", serial] + (["--video-source=camera"] + (["--camera-facing=" + facing] + tail));
    ReadSerial(serial, ["--video-source=camera"] + (["--camera-facing=" + facing] + tail), NoOptions);
    ReadCameraSource(["--camera-facing=" + facing] + tail, o1);
    ReadFacing(facing, tail, o2);
    CameraTailRead(facing, size, noAudio, orientation, o3);
  }

  // ---------------------------------------------------------------------------
  // Registries
  // ---------------------------------------------------------------------------

  function DuplicateMessage(kind: SessionKind, serial: string): string {
    match kind
    case Screen => "Mirror session already active for device " + serial
    case Camera => "Camera session already active for device " + serial
  }

  function StartFailedMessage(kind: SessionKind, reason: string): string {
    match kind
    case Screen => "Failed to start scrcpy: " + reason
    case Camera => "Failed to start camera: " + reason
  }

  function StopFailedMessage(kind: SessionKind, reason: string): string {
    match kind
    case Screen => "Failed to stop scrcpy: " + reason
    case Camera => "Failed to stop camera: " + reason
  }

  function NotFoundMessage(kind: SessionKind, serial: string): string {
    match kind
    case Screen => "No active mirror session for device " + serial
    case Camera => "No active camera session for device " + serial
  }

  /** The entries a `try_wait` sweep keeps: those whose process still runs. */
  function Surviving(entries: map<string, Child>, probe: string -> WaitStatus): (m: map<string, Child>)
    ensures m.Keys <= entries.Keys
    ensures forall s :: s in m ==> m[s] == entries[s]
    ensures forall s :: s in entries ==> (s in m <==> probe(s) == StillRunning)
  {
    map s | s in entries && probe(s) == StillRunning :: entries[s]
  }

  /** The serials a list of sessions covers. */
  function Serials(sessions: seq<MirrorSession>): set<string> {
    set i | 0 <= i < |sessions| :: sessions[i].deviceSerial
  }

  lemma SerialsAppend(sessions: seq<MirrorSession>, next: MirrorSession)
    ensures Serials(sessions + [next]) == Serials(sessions) + {next.deviceSerial}
  {
    var t := sessions + [next];
    assert t[|sessions|] == next;
    forall x | x in Serials(sessions)
      ensures x in Serials(t)
    {
      var i :| 0 <= i < |sessions| && sessions[i].deviceSerial == x;
      assert t[i] == sessions[i];
    }
  }

  /** Sessions with pairwise distinct serials cover as many serials as there are sessions. */
  lemma {:induction false} DistinctSerialsCount(sessions: seq<MirrorSession>)
    requires forall i, j :: 0 <= i < j < |sessions| ==> sessions[i].deviceSerial != sessions[j].deviceSerial
    ensures |Serials(sessions)| == |sessions|
  {
    if sessions != [] {
      var init := sessions[..|sessions| - 1];
      var last := sessions[|sessions| - 1];
      assert sessions == init + [last];
      DistinctSerialsCount(init);
      SerialsAppend(init, last);
      assert last.deviceSerial !in Serials(init) by {
        forall x | x in Serials(init)
          ensures x != last.deviceSerial
        {
          var i :| 0 <= i < |init| && init[i].deviceSerial == x;
          assert sessions[i] == init[i];
        }
      }
    }
  }

  lemma SurvivingIsRemoval(entries: map<string, Child>, probe: string -> WaitStatus, exited: set<string>)
    requires exited == set s | s in entries && probe(s) != StillRunning
    ensures entries - exited == Surviving(entries, probe)
  {
  }

  /**
   * One registry (`ACTIVE_SESSIONS` or `CAMERA_SESSIONS`): a map from device
   * serial to the child mirroring it, empty when the application starts.
   */
  class SessionMap {
    const kind: SessionKind
    var entries: map<string, Child>

    constructor (kind: SessionKind)
      ensures this.kind == kind && entries == map[]
    {
      this.kind := kind;
      entries := map[];
    }

    /**
     * `start_mirror` / `start_camera_mirror` after the argument vector is
     * built: refuses a serial already present, otherwise spawns and records
     * the child.
     */
    method Start(serial: string, argv: seq<string>, spawn: SpawnOutcome, now: string)
      returns (r: Result<MirrorSession, AppError>)
      modifies this
      ensures serial in old(entries) ==>
                r == Err(MirrorError(DuplicateMessage(kind, serial))) && entries == old(entries)
      ensures serial !in old(entries) && spawn.SpawnFailed? ==>
                r == Err(MirrorError(StartFailedMessage(kind, spawn.reason))) && entries == old(entries)
      ensures serial !in old(entries) && spawn.Spawned? ==>
                r == Ok(MirrorSession(serial, spawn.pid, now))
                && entries == old(entries)[serial := Child(spawn.pid, argv)]
    {
      if serial in entries {
        return Err(MirrorError(DuplicateMessage(kind, serial)));
      }
      match spawn
      case SpawnFailed(reason) =>
        return Err(MirrorError(StartFailedMessage(kind, reason)));
      case Spawned(pid) =>
        entries := entries[serial := Child(pid, argv)];
        return Ok(MirrorSession(serial, pid, now));
    }

    /**
     * `stop_mirror` / `stop_camera_mirror`: removes the entry, then kills the
     * child; the entry is gone even when the kill fails.
     */
    method Stop(serial: string, kill: KillOutcome) returns (r: Result<(), AppError>)
      modifies this
      ensures serial !in old(entries) ==>
                r == Err(MirrorError(NotFoundMessage(kind, serial))) && entries == old(entries)
      ensures serial in old(entries) ==> entries == old(entries) - {serial}
      ensures serial in old(entries) && kill.Killed? ==> r == Ok(())
      ensures serial in old(entries) && kill.KillFailed? ==>
                r == Err(MirrorError(StopFailedMessage(kind, kill.reason)))
    {
      if serial !in entries {
        return Err(MirrorError(NotFoundMessage(kind, serial)));
      }
      entries := entries - {serial};
      match kill
      case KillFailed(reason) =>
        return Err(MirrorError(StopFailedMessage(kind, reason)));
      case Killed =>
        return Ok(());
    }

    /**
     * `get_active_sessions` / `get_camera_sessions`: drops every entry whose
     * child has exited or cannot be polled, then lists one session per
     * remaining entry, in the map's (unspecified) order, without a start time.
     */
    method List(probe: string -> WaitStatus) returns (sessions: seq<MirrorSession>)
      modifies this
      ensures entries == Surviving(old(entries), probe)
      ensures |sessions| == |entries|
      ensures Serials(sessions) == entries.Keys
      ensures forall i, j :: 0 <= i < j < |sessions| ==> sessions[i].deviceSerial != sessions[j].deviceSerial
      ensures forall i :: 0 <= i < |sessions| ==>
                sessions[i].deviceSerial in entries
                && sessions[i].processId == entries[sessions[i].deviceSerial].pid
                && sessions[i].startedAt == ""
    {
      var toRemove := Exited(probe);
      RemoveAll(toRemove);
      SurvivingIsRemoval(old(entries), probe, toRemove);
      sessions := Snapshot();
    }

    /** Removes the given serials, one at a time. */
    method RemoveAll(serials: set<string>)
      modifies this
      ensures entries == old(entries) - serials
    {
      var rest := serials;
      while rest != {}
        invariant rest <= serials
        invariant entries == old(entries) - (serials - rest)
        decreases rest
      {
        var s :| s in rest;
        entries := entries - {s};
        rest := rest - {s};
      }
    }

    /** The serials whose child has exited or cannot be polled. */
    method Exited(probe: string -> WaitStatus) returns (toRemove: set<string>)
      ensures toRemove == set s | s in entries && probe(s) != StillRunning
    {
      toRemove := {};
      var pending := entries.Keys;
      while pending != {}
        invariant pending <= entries.Keys
        invariant toRemove == set s | s in entries.Keys - pending && probe(s) != StillRunning
        decreases pending
      {
        var s :| s in pending;
        if probe(s) != StillRunning {
          toRemove := toRemove + {s};
        }
        pending := pending - {s};
      }
    }

    /** One session per entry, in the map's (unspecified) order, without a start time. */
    method Snapshot() returns (sessions: seq<MirrorSession>)
      ensures |sessions| == |entries|
      ensures Serials(sessions) == entries.Keys
      ensures forall i, j :: 0 <= i < j < |sessions| ==> sessions[i].deviceSerial != sessions[j].deviceSerial
      ensures forall i :: 0 <= i < |sessions| ==>
                sessions[i].deviceSerial in entries
                && sessions[i].processId == entries[sessions[i].deviceSerial].pid
                && sessions[i].startedAt == ""
    {
      sessions := [];
      var left := entries.Keys;
      while left != {}
        invariant left <= entries.Keys
        invariant Serials(sessions) == entries.Keys - left
        invariant forall i, j :: 0 <= i < j < |sessions| ==> sessions[i].deviceSerial != sessions[j].deviceSerial
        invariant forall i :: 0 <= i < |sessions| ==>
                    sessions[i].deviceSerial in entries
                    && sessions[i].processId == entries[sessions[i].deviceSerial].pid
                    && sessions[i].startedAt == ""
        decreases left
      {
        var s :| s in left;
        var next := MirrorSession(s, entries[s].pid, "");
        assert s !in Serials(sessions);
        assert forall i :: 0 <= i < |sessions| ==> sessions[i].deviceSerial != s by {
          forall i | 0 <= i < |sessions|
            ensures sessions[i].deviceSerial != s
          {
            assert sessions[i].deviceSerial in Serials(sessions);
          }
        }
        SerialsAppend(sessions, next);
        assert entries.Keys - (left - {s}) == (entries.Keys - left) + {s};
        sessions := sessions + [next];
        left := left - {s};
      }
      assert entries.Keys - left == entries.Keys;
      DistinctSerialsCount(sessions);
    }
  }

  /** The scrcpy service: a screen registry and a separate camera registry. */
  class ScrcpyService {
    const mirror: SessionMap
    const camera: SessionMap

    ghost predicate Valid()
      reads this
    {
      mirror != camera && mirror.kind == Screen && camera.kind == Camera
    }

    constructor ()
      ensures Valid() && fresh(mirror) && fresh(camera)
      ensures mirror.entries == map[] && camera.entries == map[]
    {
      mirror := new SessionMap(Screen);
      camera := new SessionMap(Camera);
    }

    /** `start_mirror`: the camera registry is untouched. */
    method StartMirror(serial: string, screenOff: bool, spawn: SpawnOutcome, now: string)
      returns (r: Result<MirrorSession, AppError>)
      requires Valid()
      modifies mirror
      ensures serial in old(mirror.entries) ==>
                r == Err(MirrorError("Mirror session already active for device " + serial))
                && mirror.entries == old(mirror.entries)
      ensures serial !in old(mirror.entries) && spawn.SpawnFailed? ==>
                r == Err(MirrorError("Failed to start scrcpy: " + spawn.reason))
                && mirror.entries == old(mirror.entries)
      ensures serial !in old(mirror.entries) && spawn.Spawned? ==>
                r == Ok(MirrorSession(serial, spawn.pid, now))
                && mirror.entries == old(mirror.entries)[serial := Child(spawn.pid, MirrorArgs(serial, screenOff))]
      ensures camera.entries == old(camera.entries)
    {
      r := mirror.Start(serial, MirrorArgs(serial, screenOff), spawn, now);
    }

    /** `stop_mirror`. */
    method StopMirror(serial: string, kill: KillOutcome) returns (r: Result<(), AppError>)
      requires Valid()
      modifies mirror
      ensures serial !in old(mirror.entries) ==>
                r == Err(MirrorError("No active mirror session for device " + serial))
                && mirror.entries == old(mirror.entries)
      ensures serial in old(mirror.entries) ==> mirror.entries == old(mirror.entries) - {serial}
      ensures serial in old(mirror.entries) ==>
                r == if kill.Killed? then Ok(()) else Err(MirrorError("Failed to stop scrcpy: " + kill.reason))
      ensures camera.entries == old(camera.entries)
    {
      r := mirror.Stop(serial, kill);
    }

    /** `get_active_sessions`. */
    method GetActiveSessions(probe: string -> WaitStatus) returns (sessions: seq<MirrorSession>)
      requires Valid()
      modifies mirror
      ensures mirror.entries == Surviving(old(mirror.entries), probe)
      ensures |sessions| == |mirror.entries| && Serials(sessions) == mirror.entries.Keys
      ensures forall i :: 0 <= i < |sessions| ==>
                sessions[i].deviceSerial in mirror.entries
                && sessions[i].processId == mirror.entries[sessions[i].deviceSerial].pid
                && sessions[i].startedAt == ""
      ensures camera.entries == old(camera.entries)
    {
      sessions := mirror.List(probe);
    }

    /** `start_camera_mirror`: the screen registry is untouched. */
    method StartCameraMirror(serial: string, facing: string, size: string, noAudio: bool,
                             orientation: string, spawn: SpawnOutcome, now: string)
      returns (r: Result<MirrorSession, AppError>)
      requires Valid()
      modifies camera
      ensures serial in old(camera.entries) ==>
                r == Err(MirrorError("Camera session already active for device " + serial))
                && camera.entries == old(camera.entries)
      ensures serial !in old(camera.entries) && spawn.SpawnFailed? ==>
                r == Err(MirrorError("Failed to start camera: " + spawn.reason))
                && camera.entries == old(camera.entries)
      ensures serial !in old(camera.entries) && spawn.Spawned? ==>
                r == Ok(MirrorSession(serial, spawn.pid, now))
                && camera.entries == old(camera.entries)[serial := Child(spawn.pid, CameraArgs(serial, facing, size, noAudio, orientation))]
      ensures mirror.entries == old(mirror.entries)
    {
      r := camera.Start(serial, CameraArgs(serial, facing, size, noAudio, orientation), spawn, now);
    }

    /** `stop_camera_mirror`. */
    method StopCameraMirror(serial: string, kill: KillOutcome) returns (r: Result<(), AppError>)
      requires Valid()
      modifies camera
      ensures serial !in old(camera.entries) ==>
                r == Err(MirrorError("No active camera session for device " + serial))
                && camera.entries == old(camera.entries)
      ensures serial in old(camera.entries) ==> camera.entries == old(camera.entries) - {serial}
      ensures serial in old(camera.entries) ==>
                r == if kill.Killed? then Ok(()) else Err(MirrorError("Failed to stop camera: " + kill.reason))
      ensures mirror.entries == old(mirror.entries)
    {
      r := camera.Stop(serial, kill);
    }

    /** `get_camera_sessions`. */
    method GetCameraSessions(probe: string -> WaitStatus) returns (sessions: seq<MirrorSession>)
      requires Valid()
      modifies camera
      ensures camera.entries == Surviving(old(camera.entries), probe)
      ensures |sessions| == |camera.entries| && Serials(sessions) == camera.entries.Keys
      ensures forall i :: 0 <= i < |sessions| ==>
                sessions[i].deviceSerial in camera.entries
                && sessions[i].processId == camera.entries[sessions[i].deviceSerial].pid
                && sessions[i].startedAt == ""
      ensures mirror.entries == old(mirror.entries)
    {
      sessions := camera.List(probe);
    }
  }

  /**
   * A screen and a camera session for one device coexist; a second screen
   * session is refused until the first is stopped, after which it starts again.
   */
  method MirrorAndCameraScenario(serial: string, now: string)
    returns (first: Result<MirrorSession, AppError>, cam: Result<MirrorSession, AppError>,
             again: Result<MirrorSession, AppError>, stopped: Result<(), AppError>,
             restarted: Result<MirrorSession, AppError>)
    ensures first == Ok(MirrorSession(serial, 100, now))
    ensures cam == Ok(MirrorSession(serial, 200, now))
    ensures again == Err(MirrorError("Mirror session already active for device " + serial))
    ensures stopped == Ok(())
    ensures restarted == Ok(MirrorSession(serial, 300, now))
  {
    var service := new ScrcpyService();
    first := service.StartMirror(serial, false, Spawned(100), now);
    cam := service.StartCameraMirror(serial, "back", "", false, "landscape", Spawned(200), now);
    again := service.StartMirror(serial, false, Spawned(999), now);
    stopped := service.StopMirror(serial, Killed);
    restarted := service.StartMirror(serial, true, Spawned(300), now);
  }
}
