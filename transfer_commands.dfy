/**
 * The `push_files` command (src-tauri/src/commands/transfer.rs): one push
 * per path, in order, against a transfer registry.
 */
module TransferCommands {
  import opened Wrappers
  import opened Models
  import opened Errors
  import opened Exec
  import opened TransferService

  /**
   * What the environment supplies for the push of one path: the id and start
   * time the clocks give, the local file's size, and adb's outcome.
   */
  datatype PushEnv = PushEnv(id: string, startedAt: string, sizeBytes: nat, output: Output)

  /** `dest.unwrap_or(settings.default_device_dir)`. */
  function DestDir(dest: Option<string>, settings: Settings): (d: string)
    ensures dest.Some? ==> d == dest.value
    ensures dest.None? ==> d == settings.defaultDeviceDir
  {
    dest.UnwrapOr(settings.defaultDeviceDir)
  }

  /**
   * The item `push_files` would report for a path whose push returned an
   * error: failed, nothing sent, the directory as destination, the error's text.
   */
  function ErrorItem(path: string, destDir: string, e: AppError, millis: string, startedAt: string): (item: TransferItem)
    ensures item.id == "error_" + millis && item.sourcePath == path && item.startedAt == startedAt
    ensures item.fileName == PushFileName(path)
    ensures item.destPath == "/sdcard/" + destDir + "/"
    ensures item.sizeBytes == 0 && item.transferredBytes == 0
    ensures item.status == Failed && item.error == Some(Display(e))
  {
    TransferItem("error_" + millis, PushFileName(path), path, "/sdcard/" + destDir + "/", 0, 0, Failed, Some(Display(e)), startedAt)
  }

  /** An error item is consistent in the sense every finished push is. */
  lemma ErrorItemConsistent(path: string, destDir: string, e: AppError, millis: string, startedAt: string)
    ensures Consistent(ErrorItem(path, destDir, e, millis, startedAt))
  {
  }

  /** The item the push of `paths[i]` reports. */
  function PushedItem(path: string, destDir: string, env: PushEnv): TransferItem {
    Finished(NewItem(env.id, path, destDir, env.sizeBytes, env.startedAt), env.output)
  }

  /** The history after a run of finished pushes, each put at the head and trimmed. */
  function HistoryAfter(h: seq<TransferItem>, items: seq<TransferItem>): (r: seq<TransferItem>)
    ensures items != [] ==> 1 <= |r| <= HistoryCap && r[0] == items[|items| - 1]
    ensures items == [] ==> r == h
  {
    if items == [] then h
    else Capped([items[|items| - 1]] + HistoryAfter(h, items[..|items| - 1]))
  }

  /** After a run of pushes the history lists the newest of them first, as far back as it keeps. */
  lemma {:induction false} HistoryNewestFirst(h: seq<TransferItem>, items: seq<TransferItem>, k: nat)
    requires k < |items| && k < HistoryCap
    ensures k < |HistoryAfter(h, items)|
    ensures HistoryAfter(h, items)[k] == items[|items| - 1 - k]
  {
    var init := items[..|items| - 1];
    var prev := HistoryAfter(h, init);
    if k > 0 {
      HistoryNewestFirst(h, init, k - 1);
      assert ([items[|items| - 1]] + prev)[k] == prev[k - 1];
    }
  }

  /** The ids of the pushes made. */
  function EnvIds(envs: seq<PushEnv>): set<string> {
    set i | 0 <= i < |envs| :: envs[i].id
  }

  /**
   * `push_files`: fails before any push when the settings cannot be read or
   * name no adb; otherwise pushes every path in order and reports one item
   * per path.
   */
  method PushFiles(state: TransferState, settings: Result<Settings, AppError>, paths: seq<string>,
                   dest: Option<string>, envs: seq<PushEnv>)
    returns (r: Result<seq<TransferItem>, AppError>)
    requires state.Valid()
    requires |envs| == |paths|
    modifies state
    ensures state.Valid()
    ensures settings.Err? ==>
              r == Err(settings.error) && state.active == old(state.active) && state.history == old(state.history)
    ensures settings.Ok? && settings.value.adbResolvedPath.None? ==>
              r == Err(AdbNotFound("ADB not found. Configure it in Settings."))
              && state.active == old(state.active) && state.history == old(state.history)
    ensures settings.Ok? && settings.value.adbResolvedPath.Some? ==>
              r.Ok? && |r.value| == |paths|
              && (forall i :: 0 <= i < |paths| ==>
                    r.value[i] == PushedItem(paths[i], DestDir(dest, settings.value), envs[i]))
              && state.active == old(state.active) - EnvIds(envs)
              && state.history == HistoryAfter(old(state.history), r.value)
  {
    if settings.Err? {
      return Err(settings.error);
    }
    if settings.value.adbResolvedPath.None? {
      return Err(AdbNotFound("ADB not found. Configure it in Settings."));
    }
    var results := PushAll(state, paths, DestDir(dest, settings.value), envs);
    r := Ok(results);
  }

  /** The loop of `push_files`: every path pushed in turn, a failure never stopping the ones after it. */
  method PushAll(state: TransferState, paths: seq<string>, destDir: string, envs: seq<PushEnv>)
    returns (results: seq<TransferItem>)
    requires state.Valid()
    requires |envs| == |paths|
    modifies state
    ensures state.Valid()
    ensures |results| == |paths|
    ensures forall i :: 0 <= i < |paths| ==> results[i] == PushedItem(paths[i], destDir, envs[i])
    ensures state.active == old(state.active) - EnvIds(envs)
    ensures state.history == HistoryAfter(old(state.history), results)
  {
    results := [];
    var i := 0;
    while i < |paths|
      invariant 0 <= i <= |paths|
      invariant state.Valid()
      invariant |results| == i
      invariant forall k :: 0 <= k < i ==> results[k] == PushedItem(paths[k], destDir, envs[k])
      invariant state.active == old(state.active) - EnvIds(envs[..i])
      invariant state.history == HistoryAfter(old(state.history), results)
    {
      results := PushNext(state, paths, destDir, envs, i, old(state.active), old(state.history), results);
      i := i + 1;
    }
    assert envs[..i] == envs;
  }

  /**
   * One turn of the loop of `push_files`: pushes the next path and carries
   * the loop's facts about the results and the registry one step on.
   */
  method PushNext(state: TransferState, paths: seq<string>, destDir: string, envs: seq<PushEnv>, i: nat,
                  ghost active0: map<string, Handle>, ghost history0: seq<TransferItem>, results: seq<TransferItem>)
    returns (next: seq<TransferItem>)
    requires state.Valid()
    requires i < |paths| == |envs| && |results| == i
    requires forall k :: 0 <= k < i ==> results[k] == PushedItem(paths[k], destDir, envs[k])
    requires state.active == active0 - EnvIds(envs[..i])
    requires state.history == HistoryAfter(history0, results)
    modifies state
    ensures state.Valid()
    ensures |next| == i + 1
    ensures forall k :: 0 <= k < i + 1 ==> next[k] == PushedItem(paths[k], destDir, envs[k])
    ensures state.active == active0 - EnvIds(envs[..i + 1])
    ensures state.history == HistoryAfter(history0, next)
  {
    var env := envs[i];
    var pushed := state.PushFile(env.id, paths[i], destDir, env.sizeBytes, env.startedAt, env.output);
    var item := pushed.value;
    assert item == PushedItem(paths[i], destDir, env);
    HistoryAfterStep(history0, results, item);
    EnvIdsStep(envs, i, active0);
    next := results + [item];
    assert forall k :: 0 <= k < i ==> next[k] == results[k];
  }

  lemma HistoryAfterStep(h: seq<TransferItem>, items: seq<TransferItem>, item: TransferItem)
    ensures HistoryAfter(h, items + [item]) == Capped([item] + HistoryAfter(h, items))
  {
    assert (items + [item])[..|items|] == items;
  }

  lemma EnvIdsStep(envs: seq<PushEnv>, i: nat, m: map<string, Handle>)
    requires i < |envs|
    ensures EnvIds(envs[..i + 1]) == EnvIds(envs[..i]) + {envs[i].id}
    ensures m - EnvIds(envs[..i + 1]) == (m - EnvIds(envs[..i])) - {envs[i].id}
  {
    assert envs[..i + 1] == envs[..i] + [envs[i]];
    forall x | x in EnvIds(envs[..i])
      ensures x in EnvIds(envs[..i + 1])
    {
      var k :| 0 <= k < i && envs[..i][k].id == x;
      assert envs[..i + 1][k] == envs[..i][k];
    }
    assert envs[..i + 1][i] == envs[i];
  }

}
