/**
 * Transfer bookkeeping (src-tauri/src/services/transfer_service.rs).
 *
 * `push_file` takes the state's lock twice: once to register the item as
 * active, once to record its outcome, with the adb run in between. The
 * model splits it into `BeginPush` and `FinishPush` so that a
 * `CancelTransfer` can happen between the two.
 */
module TransferService {
  import opened Wrappers
  import opened Models
  import opened Errors
  import opened Exec
  import Paths

  /** How many finished transfers `push_file` keeps. */
  const HistoryCap: nat := 50

  /** An active transfer: its item and the adb process pushing it, if one is tracked. */
  datatype Handle = Handle(item: TransferItem, process: Option<nat>)

  /** The name a pushed file is known by: the last component of its path, or "unknown". */
  function PushFileName(sourcePath: string): (name: string)
    ensures Paths.FileName(sourcePath).Some? ==> name == Paths.FileName(sourcePath).value
    ensures Paths.FileName(sourcePath).None? ==> name == "unknown"
    ensures name != []
  {
    Paths.FileName(sourcePath).UnwrapOr("unknown")
  }

  /** Where a file lands on the device: `/sdcard/{dest_dir}/{file_name}`. */
  function DestPath(destDir: string, fileName: string): (p: string)
    ensures p == "/sdcard/" + destDir + "/" + fileName
    ensures |p| == 9 + |destDir| + |fileName| && p[|p| - |fileName|..] == fileName
  {
    "/sdcard/" + destDir + "/" + fileName
  }

  /** The item `push_file` registers before running adb. */
  function NewItem(id: string, sourcePath: string, destDir: string, sizeBytes: nat, startedAt: string): (item: TransferItem)
    ensures item.id == id && item.sourcePath == sourcePath && item.startedAt == startedAt
    ensures item.fileName == PushFileName(sourcePath)
    ensures item.destPath == DestPath(destDir, item.fileName)
    ensures item.sizeBytes == sizeBytes && item.transferredBytes == 0
    ensures item.status == Transferring && item.error == None
  {
    var name := PushFileName(sourcePath);
    TransferItem(id, name, sourcePath, DestPath(destDir, name), sizeBytes, 0, Transferring, None, startedAt)
  }

  /** The item once adb has run: complete with every byte counted, or failed with the reason. */
  function Finished(item: TransferItem, output: Output): (done: TransferItem)
    ensures done.id == item.id && done.fileName == item.fileName && done.sourcePath == item.sourcePath
    ensures done.destPath == item.destPath && done.sizeBytes == item.sizeBytes && done.startedAt == item.startedAt
    ensures output.Exited? && output.success ==>
              done.status == Complete && done.transferredBytes == item.sizeBytes && done.error == item.error
    ensures output.Exited? && !output.success ==>
              done.status == Failed && done.transferredBytes == item.transferredBytes && done.error == Some(output.stderr)
    ensures output.LaunchFailed? ==>
              done.status == Failed && done.transferredBytes == item.transferredBytes
              && done.error == Some("Failed to execute adb: " + output.reason)
  {
    match output
    case Exited(success, _, stderr) =>
      if success then item.(status := Complete, transferredBytes := item.sizeBytes)
      else item.(status := Failed, error := Some(stderr))
    case LaunchFailed(reason) =>
      item.(status := Failed, error := Some("Failed to execute adb: " + reason))
  }

  /** `truncate(HistoryCap)`: the newest entries, at most `HistoryCap` of them. */
  function Capped(h: seq<TransferItem>): (c: seq<TransferItem>)
    ensures |c| == if |h| > HistoryCap then HistoryCap else |h|
    ensures c == h[..|c|]
  {
    if |h| > HistoryCap then h[..HistoryCap] else h
  }

  /** A terminal item tells the truth: complete means every byte and no error, failed means a reason. */
  predicate Consistent(item: TransferItem) {
    (item.status == Complete ==> item.transferredBytes == item.sizeBytes && item.error == None)
    && (item.status == Failed ==> item.error.Some? && item.transferredBytes == 0)
  }

  /** Every item `push_file` returns is terminal and consistent. */
  lemma FinishedConsistent(id: string, sourcePath: string, destDir: string, sizeBytes: nat, startedAt: string, output: Output)
    ensures var done := Finished(NewItem(id, sourcePath, destDir, sizeBytes, startedAt), output);
            Consistent(done) && (done.status == Complete || done.status == Failed)
            && (done.status == Complete <==> output.Exited? && output.success)
  {
  }

  /** A file pushed from `dir` keeps its name on the device. */
  lemma PushKeepsName(dir: string, name: string, destDir: string)
    requires name != [] && name != "." && name != ".." && Paths.NoSeparator(name)
    ensures PushFileName(Paths.Join(dir, name)) == name
    ensures DestPath(destDir, PushFileName(Paths.Join(dir, name))) == "/sdcard/" + destDir + "/" + name
  {
    Paths.FileNameOfJoin(dir, name);
  }

  /** The transfer registry: active transfers by id, and the most recent finished ones first. */
  class TransferState {
    var active: map<string, Handle>
    var history: seq<TransferItem>

    /** Every active entry is filed under its own id, still transferring, with nothing sent and no process. */
    ghost predicate Valid()
      reads this
    {
      forall id :: id in active ==>
        active[id].item.id == id && active[id].item.status == Transferring
        && active[id].item.transferredBytes == 0 && active[id].process == None
    }

    constructor ()
      ensures Valid() && active == map[] && history == []
    {
      active := map[];
      history := [];
    }

    /** The first half of `push_file`: build the item and register it as active. */
    method BeginPush(id: string, sourcePath: string, destDir: string, sizeBytes: nat, startedAt: string)
      returns (item: TransferItem)
      requires Valid()
      modifies this
      ensures Valid()
      ensures item == NewItem(id, sourcePath, destDir, sizeBytes, startedAt)
      ensures active == old(active)[id := Handle(item, None)]
      ensures history == old(history)
    {
      item := NewItem(id, sourcePath, destDir, sizeBytes, startedAt);
      active := active[id := Handle(item, None)];
    }

    /** The second half of `push_file`: record adb's outcome, move the item to history, trim it. */
    method FinishPush(item: TransferItem, output: Output) returns (r: Result<TransferItem, AppError>)
      requires Valid()
      modifies this
      ensures Valid()
      ensures r == Ok(Finished(item, output))
      ensures item.id !in active && active == old(active) - {item.id}
      ensures history == Capped([r.value] + old(history))
      ensures history[0] == r.value && |history| <= HistoryCap
    {
      var done := item;
      match output {
        case Exited(success, _, stderr) =>
          if success {
            done := done.(status := Complete);
            done := done.(transferredBytes := item.sizeBytes);
          } else {
            done := done.(status := Failed);
            done := done.(error := Some(stderr));
          }
        case LaunchFailed(reason) =>
          done := done.(status := Failed);
          done := done.(error := Some("Failed to execute adb: " + reason));
      }
      active := active - {item.id};
      history := [done] + history;
      if |history| > HistoryCap {
        history := history[..HistoryCap];
      }
      r := Ok(done);
    }

    /** `push_file` with nothing happening between its two halves. */
    method PushFile(id: string, sourcePath: string, destDir: string, sizeBytes: nat, startedAt: string, output: Output)
      returns (r: Result<TransferItem, AppError>)
      requires Valid()
      modifies this
      ensures Valid()
      ensures r == Ok(Finished(NewItem(id, sourcePath, destDir, sizeBytes, startedAt), output))
      ensures active == old(active) - {id}
      ensures history == Capped([r.value] + old(history))
    {
      var item := BeginPush(id, sourcePath, destDir, sizeBytes, startedAt);
      r := FinishPush(item, output);
    }

    /**
     * `cancel_transfer`: an active transfer leaves `active` and is filed,
     * cancelled, at the head of the history, which is not trimmed here.
     */
    method CancelTransfer(id: string) returns (r: Result<(), AppError>)
      requires Valid()
      modifies this
      ensures Valid()
      ensures id !in old(active) ==>
                r == Err(TransferError("Transfer " + id + " not found"))
                && active == old(active) && history == old(history)
      ensures id in old(active) ==>
                r == Ok(()) && active == old(active) - {id}
                && history == [old(active)[id].item.(status := Cancelled)] + old(history)
    {
      if id in active {
        var handle := active[id];
        active := active - {id};
        match handle.process {
          case Some(_) =>
            // the process would be killed here; no process is ever tracked
          case None =>
        }
        var item := handle.item.(status := Cancelled);
        history := [item] + history;
        r := Ok(());
      } else {
        r := Err(TransferError("Transfer " + id + " not found"));
      }
    }

    /** `get_active_transfers`: one item per active transfer, in the map's (unspecified) order. */
    method GetActiveTransfers() returns (items: seq<TransferItem>)
      requires Valid()
      ensures |items| == |active|
      ensures Ids(items) == active.Keys
      ensures forall i, j :: 0 <= i < j < |items| ==> items[i].id != items[j].id
      ensures forall i :: 0 <= i < |items| ==> items[i].id in active && items[i] == active[items[i].id].item
    {
      items := [];
      var left := active.Keys;
      while left != {}
        invariant ListsActive(active, items, left)
        decreases left
      {
        var id :| id in left;
        var next := active[id].item;
        ListsActiveStep(active, items, left, id);
        items := items + [next];
        left := left - {id};
      }
      assert active.Keys - left == active.Keys;
      DistinctIdsCount(items);
    }

    /** `get_transfer_history`: the history as it stands, newest first. */
    method GetTransferHistory() returns (items: seq<TransferItem>)
      ensures items == history
    {
      items := history;
    }
  }

  /** The ids a list of items carries. */
  function Ids(items: seq<TransferItem>): set<string> {
    set i | 0 <= i < |items| :: items[i].id
  }

  /**
   * `items` lists, once each, the active entries whose ids are no longer in
   * `left`.
   */
  ghost predicate ListsActive(m: map<string, Handle>, items: seq<TransferItem>, left: set<string>) {
    left <= m.Keys && Ids(items) == m.Keys - left
    && (forall i, j :: 0 <= i < j < |items| ==> items[i].id != items[j].id)
    && (forall i :: 0 <= i < |items| ==> items[i].id in m && items[i] == m[items[i].id].item)
  }

  /** Listing the entry filed under `id` next keeps `ListsActive`. */
  lemma ListsActiveStep(m: map<string, Handle>, items: seq<TransferItem>, left: set<string>, id: string)
    requires ListsActive(m, items, left) && id in left && m[id].item.id == id
    ensures ListsActive(m, items + [m[id].item], left - {id})
  {
    var next := m[id].item;
    AppendUnlisted(items, next);
    assert m.Keys - (left - {id}) == (m.Keys - left) + {id};
    assert forall i :: 0 <= i < |items| ==> (items + [next])[i] == items[i];
  }

  /** Appending an item whose id is not yet listed keeps the ids distinct and adds that id. */
  lemma AppendUnlisted(items: seq<TransferItem>, next: TransferItem)
    requires forall i, j :: 0 <= i < j < |items| ==> items[i].id != items[j].id
    requires next.id !in Ids(items)
    ensures Ids(items + [next]) == Ids(items) + {next.id}
    ensures forall i, j :: 0 <= i < j < |items + [next]| ==> (items + [next])[i].id != (items + [next])[j].id
  {
    var t := items + [next];
    IdsAppend(items, next);
    forall i, j | 0 <= i < j < |t| ensures t[i].id != t[j].id {
      assert t[i] == items[i];
      if j == |items| {
        assert items[i].id in Ids(items);
      } else {
        assert t[j] == items[j];
      }
    }
  }

  lemma IdsAppend(items: seq<TransferItem>, next: TransferItem)
    ensures Ids(items + [next]) == Ids(items) + {next.id}
  {
    var t := items + [next];
    assert t[|items|] == next;
    forall x | x in Ids(items)
      ensures x in Ids(t)
    {
      var i :| 0 <= i < |items| && items[i].id == x;
      assert t[i] == items[i];
    }
  }

  /** Items with pairwise distinct ids carry as many ids as there are items. */
  lemma {:induction false} DistinctIdsCount(items: seq<TransferItem>)
    requires forall i, j :: 0 <= i < j < |items| ==> items[i].id != items[j].id
    ensures |Ids(items)| == |items|
  {
    if items != [] {
      var init := items[..|items| - 1];
      var last := items[|items| - 1];
      assert items == init + [last];
      DistinctIdsCount(init);
      IdsAppend(init, last);
      assert last.id !in Ids(init) by {
        forall x | x in Ids(init)
          ensures x != last.id
        {
          var i :| 0 <= i < |init| && init[i].id == x;
          assert items[i] == init[i];
        }
      }
    }
  }

  /**
   * A cancel between the two halves of a push: the cancel succeeds, the
   * push still finishes, and the history holds both the finished item and
   * the cancelled one under the same id.
   */
  method CancelDuringPush(id: string, sourcePath: string, destDir: string, sizeBytes: nat, startedAt: string, output: Output)
    returns (cancelled: Result<(), AppError>, pushed: Result<TransferItem, AppError>, history: seq<TransferItem>)
    ensures cancelled == Ok(())
    ensures pushed == Ok(Finished(NewItem(id, sourcePath, destDir, sizeBytes, startedAt), output))
    ensures |history| == 2 && history[0].id == id && history[1].id == id
    ensures history[0] == pushed.value
    ensures history[1].status == Cancelled && history[1].transferredBytes == 0
  {
    var state := new TransferState();
    var item := state.BeginPush(id, sourcePath, destDir, sizeBytes, startedAt);
    cancelled := state.CancelTransfer(id);
    pushed := state.FinishPush(item, output);
    history := state.GetTransferHistory();
  }

  /** A second cancel of the same transfer fails and changes nothing. */
  method CancelTwice(id: string, sourcePath: string, destDir: string, sizeBytes: nat, startedAt: string)
    returns (first: Result<(), AppError>, second: Result<(), AppError>, history: seq<TransferItem>)
    ensures first == Ok(())
    ensures second == Err(TransferError("Transfer " + id + " not found"))
    ensures |history| == 1 && history[0].id == id && history[0].status == Cancelled
  {
    var state := new TransferState();
    var _ := state.BeginPush(id, sourcePath, destDir, sizeBytes, startedAt);
    first := state.CancelTransfer(id);
    second := state.CancelTransfer(id);
    history := state.GetTransferHistory();
  }

  /** Cancels are not trimmed: a full history grows past the cap when an active transfer is cancelled. */
  method CancelOverflowsHistory(full: seq<TransferItem>, id: string, sourcePath: string, destDir: string, sizeBytes: nat, startedAt: string)
    returns (history: seq<TransferItem>)
    requires |full| == HistoryCap
    ensures |history| == HistoryCap + 1 && history[1..] == full
  {
    var state := new TransferState();
    state.history := full;
    var _ := state.BeginPush(id, sourcePath, destDir, sizeBytes, startedAt);
    var _ := state.CancelTransfer(id);
    history := state.GetTransferHistory();
  }
}
