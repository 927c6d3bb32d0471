/**
 * The upload manager component as an object: its state and refs are fields,
 * each handler is a method that changes them step by step, and each method
 * is proved to end in the state the closed-form effect in DropzoneState
 * gives, keeping the timer bookkeeping valid.
 */
module UploadDropzone {
  import opened Common
  import opened UploadChunks
  import opened UploadProgress
  import opened UploadItems
  import opened UploadFlows
  import opened DropzoneState

  const DefaultConcurrency: int := 3
  const DefaultAutoRemoveMs: int := 1000

  lemma PrependAssoc(a: seq<Request>, b: seq<nat>, c: seq<Request>, d: seq<nat>, t: ChunkTrace)
    ensures Prepend(a, b, Prepend(c, d, t)) == Prepend(a + c, b + d, t)
  {
    assert a + (c + t.requests) == (a + c) + t.requests;
    assert b + (d + t.reports) == (b + d) + t.reports;
  }

  lemma ProgressedKeepsFileLoaded(st: State, f: map<string, nat>, id: string, reports: seq<nat>, total: nat)
    ensures Progressed(st.(fileLoaded := f), id, reports, total) == Progressed(st, id, reports, total).(fileLoaded := f)
  {
  }

  lemma AppendAssoc<T>(a: seq<T>, b: seq<T>, c: seq<T>)
    ensures a + (b + c) == (a + b) + c
  {
  }

  /** `fileLoadedMap` after the PUT's callbacks: the last loaded count, when there was one. */
  function Recorded(f: map<string, nat>, id: string, reports: seq<nat>): map<string, nat> {
    if reports == [] then f else f[id := reports[|reports| - 1]]
  }

  /** Counting from a reset entry, the map ends at the last loaded count, or 0. */
  lemma RecordedFromZero(f: map<string, nat>, id: string, reports: seq<nat>)
    ensures Recorded(f[id := 0], id, reports) == f[id := LastOr(0, reports)]
  {
    if reports != [] {
      assert f[id := 0][id := reports[|reports| - 1]] == f[id := reports[|reports| - 1]];
    }
  }

  /** One more progress callback extends the reported prefix by one count. */
  lemma ProgressedOneMore(st: State, id: string, reports: seq<nat>, i: nat, total: nat)
    requires i < |reports|
    ensures var mid := Progressed(st, id, reports[..i], total).(fileLoaded := Recorded(st.fileLoaded, id, reports[..i]));
            Progressed(mid, id, [reports[i]], total).(fileLoaded := mid.fileLoaded[id := reports[i]])
            == Progressed(st, id, reports[..i + 1], total).(fileLoaded := Recorded(st.fileLoaded, id, reports[..i + 1]))
  {
    ProgressedKeepsFileLoaded(Progressed(st, id, reports[..i], total), Recorded(st.fileLoaded, id, reports[..i]), id, [reports[i]], total);
    ProgressedConcat(st, id, reports[..i], [reports[i]], total);
    assert reports[..i + 1] == reports[..i] + [reports[i]];
  }

  lemma ProgressedKeepsLog(st: State, l: seq<Request>, id: string, reports: seq<nat>, total: nat)
    ensures Progressed(st.(log := l), id, reports, total) == Progressed(st, id, reports, total).(log := l)
  {
  }

  lemma TracedNothing(st: State, id: string, total: nat)
    ensures Traced(st, id, total, [], []) == st
  {
    UpdateItemEmpty(st.items, id);
    assert st.log + [] == st.log;
  }

  lemma TracedThen(st: State, id: string, total: nat, r: seq<Request>, p: seq<nat>, more: seq<Request>)
    ensures var t := Traced(st, id, total, r, p); t.(log := t.log + more) == Traced(st, id, total, r + more, p)
  {
    assert st.log + r + more == st.log + (r + more);
  }

  /** How one chunk attempt ends: the loop moves to offset `start`, retries the chunk, or stops. */
  datatype AttemptResult = Moved(start: nat) | Retry | Stop(finish: LoopEnd)

  class Dropzone {
    /** The `autoRemoveAfterMs` prop: 0 or less disables auto-remove. */
    const autoRemoveAfterMs: int
    /** The `concurrency` prop. */
    const concurrency: int

    var items: seq<Item>
    var uploading: bool
    var percent: Option<nat>
    var totalBytes: nat
    var uploadedBytes: nat
    var fileLoaded: map<string, nat>
    var lastBytes: map<string, nat>
    var removeTimeouts: map<string, nat>
    var timers: map<nat, Timer>
    var nextTimer: nat
    var log: seq<Request>
    var completions: seq<PhotoRecord>

    function Snapshot(): State
      reads this
    {
      State(items, uploading, percent, totalBytes, uploadedBytes, fileLoaded, lastBytes,
            TimerTable(removeTimeouts, timers, nextTimer), log, completions)
    }

    predicate Valid()
      reads this
    {
      DropzoneState.Valid(Snapshot())
    }

    /** A fresh component; an absent prop takes its default (3 workers, 1000 ms auto-remove). */
    constructor(autoRemoveAfterMsProp: Option<int>, concurrencyProp: Option<int>)
      ensures Valid()
      ensures autoRemoveAfterMs == (if autoRemoveAfterMsProp.Some? then autoRemoveAfterMsProp.value else DefaultAutoRemoveMs)
      ensures concurrency == (if concurrencyProp.Some? then concurrencyProp.value else DefaultConcurrency)
      ensures Snapshot() == State([], false, None, 0, 0, map[], map[], TimerTable(map[], map[], 1), [], [])
    {
      autoRemoveAfterMs := if autoRemoveAfterMsProp.Some? then autoRemoveAfterMsProp.value else DefaultAutoRemoveMs;
      concurrency := if concurrencyProp.Some? then concurrencyProp.value else DefaultConcurrency;
      items := [];
      uploading := false;
      percent := None;
      totalBytes := 0;
      uploadedBytes := 0;
      fileLoaded := map[];
      lastBytes := map[];
      removeTimeouts := map[];
      timers := map[];
      nextTimer := 1;
      log := [];
      completions := [];
    }

    /** `addUploadedDelta(delta)`: a positive delta is added, and the percent recomputed when the total is known. */
    method AddUploadedDelta(delta: int)
      modifies this`uploadedBytes, this`percent
      ensures uploadedBytes == old(uploadedBytes) + Max(0, delta)
      ensures percent == if delta > 0 && totalBytes > 0 then Some(QueuePercent(uploadedBytes, totalBytes)) else old(percent)
    {
      if delta <= 0 {
        return;
      }
      uploadedBytes := uploadedBytes + delta;
      if totalBytes > 0 {
        percent := Some(QueuePercent(uploadedBytes, totalBytes));
      }
    }

    /** `updateProgressForFile(id, currentBytes, totalBytes)`: one progress report for one file. */
    method UpdateProgressForFile(id: string, currentBytes: nat, total: nat)
      modifies this`lastBytes, this`uploadedBytes, this`percent, this`items
      ensures Snapshot() == Progressed(old(Snapshot()), id, [currentBytes], total)
    {
      ghost var st0 := Snapshot();
      var last := if id in lastBytes then lastBytes[id] else 0;
      var deltaBytes := Max(0, currentBytes - last);
      assert [currentBytes][1..] == [];
      assert Contribution(LastBytes(st0, id), [currentBytes]) == deltaBytes;
      assert ReportsPatch([currentBytes], total) == ProgressPatch(currentBytes, total);
      lastBytes := lastBytes[id := currentBytes];
      AddUploadedDelta(deltaBytes);
      items := UpdateItem(items, id, ProgressPatch(currentBytes, total));
      assert Snapshot() == Progressed(st0, id, [currentBytes], total);
    }

    /** The progress callbacks of one transfer, in order. */
    method ReportProgress(id: string, reports: seq<nat>, total: nat)
      modifies this`lastBytes, this`uploadedBytes, this`percent, this`items
      ensures Snapshot() == Progressed(old(Snapshot()), id, reports, total)
    {
      ghost var st0 := Snapshot();
      UpdateItemEmpty(items, id);
      var i := 0;
      while i < |reports|
        invariant 0 <= i <= |reports|
        invariant Snapshot() == Progressed(st0, id, reports[..i], total)
      {
        UpdateProgressForFile(id, reports[i], total);
        ProgressedConcat(st0, id, reports[..i], [reports[i]], total);
        assert reports[..i + 1] == reports[..i] + [reports[i]];
        i := i + 1;
      }
      assert reports[..i] == reports;
    }

    /** `scheduleAutoRemove(id)`. */
    method ScheduleAutoRemove(id: string)
      modifies this`removeTimeouts, this`timers, this`nextTimer
      ensures TimerTable(removeTimeouts, timers, nextTimer)
              == Schedule(old(TimerTable(removeTimeouts, timers, nextTimer)), id, autoRemoveAfterMs)
    {
      if autoRemoveAfterMs <= 0 {
        return;
      }
      if id in removeTimeouts {
        timers := timers - {removeTimeouts[id]};
      }
      var tid := nextTimer;
      nextTimer := nextTimer + 1;
      timers := timers[tid := RemoveItem(id, autoRemoveAfterMs)];
      removeTimeouts := removeTimeouts[id := tid];
    }

    /** `cancelAutoRemove(id)`. */
    method CancelAutoRemove(id: string)
      modifies this`removeTimeouts, this`timers
      ensures TimerTable(removeTimeouts, timers, nextTimer) == Cancel(old(TimerTable(removeTimeouts, timers, nextTimer)), id)
    {
      if id in removeTimeouts {
        timers := timers - {removeTimeouts[id]};
        removeTimeouts := removeTimeouts - {id};
      }
    }

    /** The event loop runs the callback of pending timer `tid`. */
    method FireTimer(tid: nat)
      requires Valid()
      modifies this
      ensures Valid()
      ensures Snapshot() == Fired(old(Snapshot()), tid)
    {
      FiredSpec(Snapshot(), tid);
      if tid !in timers {
        return;
      }
      match timers[tid]
      case RemoveItem(id, _) =>
        items := RemoveById(items, id);
        removeTimeouts := removeTimeouts - {id};
        timers := timers - {tid};
      case StopUploading(_) =>
        uploading := false;
        timers := timers - {tid};
    }

    /** `resetProgress()`, the Clear button. */
    method ResetProgress()
      requires Valid()
      modifies this
      ensures Valid()
      ensures Snapshot() == Reset(old(Snapshot()))
    {
      ClearRemovalsSpec(TimerTable(removeTimeouts, timers, nextTimer));
      totalBytes := 0;
      uploadedBytes := 0;
      fileLoaded := map[];
      lastBytes := map[];
      percent := None;
      timers := WithoutRemovals(timers, removeTimeouts);
      removeTimeouts := map[];
      items := [];
    }

    /** One `onUploadProgress` callback of the single PUT. */
    method OnUploadProgress(id: string, loaded: nat, total: nat)
      modifies this`lastBytes, this`uploadedBytes, this`percent, this`items, this`fileLoaded
      ensures fileLoaded == old(fileLoaded)[id := loaded]
      ensures Snapshot() == Progressed(old(Snapshot()), id, [loaded], total).(fileLoaded := fileLoaded)
    {
      UpdateProgressForFile(id, loaded, total);
      fileLoaded := fileLoaded[id := loaded];
    }

    /**
     * The `onUploadProgress` callbacks of the single PUT: each is a progress
     * report for the file and records the loaded count in `fileLoaded`.
     */
    method PutProgress(id: string, reports: seq<nat>, total: nat)
      modifies this`lastBytes, this`uploadedBytes, this`percent, this`items, this`fileLoaded
      ensures Snapshot() == Progressed(old(Snapshot()), id, reports, total).(fileLoaded := Recorded(old(fileLoaded), id, reports))
    {
      ghost var st0 := Snapshot();
      UpdateItemEmpty(items, id);
      var i := 0;
      while i < |reports|
        invariant 0 <= i <= |reports|
        invariant Snapshot() == Progressed(st0, id, reports[..i], total).(fileLoaded := Recorded(st0.fileLoaded, id, reports[..i]))
      {
        OnUploadProgress(id, reports[i], total);
        ProgressedOneMore(st0, id, reports, i, total);
        i := i + 1;
      }
      assert reports[..i] == reports;
    }

    /** `updateItem(id, patch)`. */
    method Mark(id: string, p: Patch)
      modifies this`items
      ensures Snapshot() == Patched(old(Snapshot()), id, p)
    {
      items := UpdateItem(items, id, p);
    }

    /** A request leaves for the network; the log records it. */
    method Send(r: Request)
      modifies this`log
      ensures Snapshot() == old(Snapshot()).(log := old(log) + [r])
    {
      log := log + [r];
    }

    /** The first two steps of both flows: the item's removal is cancelled and the item starts. */
    method BeginUpload(id: string)
      modifies this`items, this`removeTimeouts, this`timers
      ensures Snapshot() == Patched(Cancelled(old(Snapshot()), id), id, StartPatch)
    {
      CancelAutoRemove(id);
      Mark(id, StartPatch);
    }

    /** The created record goes to `onComplete`, then the item's removal is scheduled. */
    method Deliver(id: string, photo: PhotoRecord)
      modifies this`completions, this`removeTimeouts, this`timers, this`nextTimer
      ensures Snapshot() == Delivered(old(Snapshot()), id, photo, autoRemoveAfterMs)
    {
      completions := completions + [photo];
      ScheduleAutoRemove(id);
    }

    /**
     * `notifyBackend(file, objectName, gsPath)` with answer `notify`, then the
     * item is marked done, the record delivered and the removal scheduled; a
     * failed notify marks the item in error.
     */
    method NotifyBackend(it: Item, notify: Reply<PhotoRecord>, objectName: Option<string>, gsPath: Option<string>)
      returns (outcome: Outcome)
      modifies this`log, this`items, this`completions, this`removeTimeouts, this`timers, this`nextTimer
      ensures outcome == if notify.Resolved? then Completed(notify.value) else Failed(notify.message)
      ensures Snapshot() == Notified(old(Snapshot()), it, notify, objectName, gsPath, autoRemoveAfterMs)
    {
      Send(NotifyUpload(it.name, objectName, gsPath, it.size));
      if notify.Threw? {
        Mark(it.id, ErrorPatch(notify.message));
        return Failed(notify.message);
      }
      Mark(it.id, DonePatch(objectName, gsPath, it.size));
      Deliver(it.id, notify.value);
      outcome := Completed(notify.value);
    }

    /** `uploadSinglePut(item)`: the answers of the signing call, the PUT and the notify are `s`. */
    method UploadSinglePut(it: Item, s: SingleScript) returns (outcome: Outcome)
      modifies this
      ensures outcome == SinglePutOutcome(s)
      ensures Snapshot() == SinglePutEffect(old(Snapshot()), it, s, autoRemoveAfterMs)
    {
      BeginUpload(it.id);
      Send(SignedUrlRequest(it.name));
      ghost var started := Snapshot();
      if s.signed.Threw? {
        Mark(it.id, ErrorPatch(s.signed.message));
        return Failed(s.signed.message);
      }
      var signedResp := s.signed.value;
      if !Truthy(signedResp.signedUrl) || !Truthy(signedResp.objectName) || !Truthy(signedResp.gsPath) {
        Mark(it.id, ErrorPatch(SignedUrlMissing));
        return Failed(SignedUrlMissing);
      }
      var signedUrl, objectName, gsPath := signedResp.signedUrl.value, signedResp.objectName.value, signedResp.gsPath.value;
      assert SignedTarget(s) == Some((signedUrl, objectName, gsPath));
      outcome := PutSigned(it, s, signedUrl, objectName, gsPath);
    }

    /** The single PUT to a complete signed target, with its progress callbacks, then the notify. */
    method PutSigned(it: Item, s: SingleScript, signedUrl: string, objectName: string, gsPath: string) returns (outcome: Outcome)
      requires SignedTarget(s) == Some((signedUrl, objectName, gsPath))
      modifies this
      ensures outcome == SinglePutOutcome(s)
      ensures Snapshot() == Transferred(old(Snapshot()), it, s, signedUrl, objectName, gsPath, autoRemoveAfterMs)
    {
      SendFile(it, s.progress, signedUrl);
      if s.put.TransferFailed? {
        Mark(it.id, ErrorPatch(s.put.message));
        return Failed(s.put.message);
      }
      outcome := NotifyBackend(it, s.notify, Some(objectName), Some(gsPath));
    }

    /** The single PUT of `it`'s file to `url`: the file's counters are reset and the PUT reports its progress. */
    method SendFile(it: Item, progress: seq<nat>, url: string)
      modifies this`log, this`lastBytes, this`uploadedBytes, this`percent, this`items, this`fileLoaded
      ensures Snapshot() == Progressed(Armed(old(Snapshot()), it.id, progress, url), it.id, progress, it.size)
    {
      ghost var st0 := Snapshot();
      fileLoaded := fileLoaded[it.id := 0];
      lastBytes := lastBytes[it.id := 0];
      Send(PutFile(url));
      ghost var armed := Snapshot();
      RecordedFromZero(st0.fileLoaded, it.id, progress);
      assert armed.(fileLoaded := Recorded(armed.fileLoaded, it.id, progress)) == Armed(st0, it.id, progress, url);
      PutProgress(it.id, progress, it.size);
      ProgressedKeepsFileLoaded(armed, Recorded(armed.fileLoaded, it.id, progress), it.id, progress, it.size);
    }

    /**
     * The chunk loop of `uploadResumable` over the whole of `it`'s file:
     * replies are consumed one per attempt, in order. It stops when every
     * byte is sent, when a chunk has failed three times (the caller then
     * falls back), or when no reply is left (the PUT is still awaited).
     */
    method SendChunks(it: Item, uploadUrl: string, chunks: seq<ChunkReply>) returns (finish: LoopEnd)
      modifies this`log, this`lastBytes, this`uploadedBytes, this`percent, this`items
      ensures var t := ChunkRun(uploadUrl, it.size, 0, 0, chunks);
              finish == t.end && Snapshot() == Traced(old(Snapshot()), it.id, it.size, t.requests, t.reports)
    {
      ghost var st0 := Snapshot();
      ghost var sent: seq<Request> := [];
      ghost var seen: seq<nat> := [];
      var total := it.size;
      var start: nat := 0;
      var replies := chunks;
      TracedNothing(st0, it.id, total);
      while start < total
        invariant ChunkRun(uploadUrl, total, 0, 0, chunks) == Prepend(sent, seen, ChunkRun(uploadUrl, total, start, 0, replies))
        invariant Snapshot() == Traced(st0, it.id, total, sent, seen)
        decreases |replies|
      {
        var next, remaining, stopped, stop, sent1, seen1 := SendChunk(it, uploadUrl, start, replies);
        ghost var tail := if stopped then ChunkTrace([], [], stop) else ChunkRun(uploadUrl, total, next, 0, remaining);
        TracedAppend(st0, it.id, total, sent, seen, sent1, seen1);
        PrependAssoc(sent, seen, sent1, seen1, tail);
        sent, seen := sent + sent1, seen + seen1;
        if stopped {
          assert sent + [] == sent && seen + [] == seen;
          return stop;
        }
        start, replies := next, remaining;
      }
      assert ChunkRun(uploadUrl, total, start, 0, replies) == ChunkTrace([], [], AllSent);
      assert sent + [] == sent && seen + [] == seen;
      finish := AllSent;
    }

    /**
     * The attempts at the chunk from `chunkStart`: it ends accepted (or moved
     * by a 308) at a new `start`, or `stopped` with `finish` GaveUp after the
     * third failure or Stalled when no reply is left.
     */
    method SendChunk(it: Item, uploadUrl: string, chunkStart: nat, replies: seq<ChunkReply>)
      returns (start: nat, remaining: seq<ChunkReply>, stopped: bool, finish: LoopEnd, ghost sent: seq<Request>, ghost seen: seq<nat>)
      requires chunkStart < it.size
      modifies this`log, this`lastBytes, this`uploadedBytes, this`percent, this`items
      ensures !stopped ==> |remaining| < |replies|
      ensures ChunkRun(uploadUrl, it.size, chunkStart, 0, replies)
              == Prepend(sent, seen, if stopped then ChunkTrace([], [], finish) else ChunkRun(uploadUrl, it.size, start, 0, remaining))
      ensures Snapshot() == Traced(old(Snapshot()), it.id, it.size, sent, seen)
    {
      ghost var st0 := Snapshot();
      var total := it.size;
      start := chunkStart;
      var attempt: nat := 0;
      var success := false;
      remaining, stopped, finish := replies, false, AllSent;
      sent, seen := [], [];
      TracedNothing(st0, it.id, total);
      assert ChunkRun(uploadUrl, total, start, 0, replies) == Prepend([], [], ChunkRun(uploadUrl, total, start, 0, replies));
      while attempt < MaxChunkRetries && !success
        invariant !success ==> start == chunkStart && attempt < MaxChunkRetries
        invariant ChunkRun(uploadUrl, total, chunkStart, 0, replies)
                  == Prepend(sent, seen, ChunkRun(uploadUrl, total, start, if success then 0 else attempt, remaining))
        invariant Snapshot() == Traced(st0, it.id, total, sent, seen)
        invariant |remaining| <= |replies| && (success || attempt > 0 ==> |remaining| < |replies|)
        decreases |remaining|
      {
        if remaining == [] {
          assert ChunkRun(uploadUrl, total, start, attempt, remaining) == ChunkTrace([], [], Stalled);
          stopped, finish := true, Stalled;
          return;
        }
        var result, sent1, seen1 := ChunkAttempt(it, uploadUrl, start, attempt, remaining);
        ghost var tail := ChunkRun(uploadUrl, total, start, attempt, remaining);
        TracedAppend(st0, it.id, total, sent, seen, sent1, seen1);
        ghost var rest := match result
          case Moved(n) => ChunkRun(uploadUrl, total, n, 0, remaining[1..])
          case Retry => ChunkRun(uploadUrl, total, start, attempt + 1, remaining[1..])
          case Stop(f) => ChunkTrace([], [], f);
        PrependAssoc(sent, seen, sent1, seen1, rest);
        sent, seen := sent + sent1, seen + seen1;
        remaining := remaining[1..];
        match result
        case Moved(n) =>
          start := n;
          success := true;
        case Retry =>
          attempt := attempt + 1;
        case Stop(f) =>
          stopped, finish := true, f;
          return;
      }
    }

    /**
     * One attempt at the chunk from `start` after `attempt` failures, against
     * reply `replies[0]`: the PUT is sent with its progress; an accepted chunk
     * or a 308 naming the server's offset moves on, the third failure stops
     * the loop, and any other failure sleeps the back-off and retries.
     */
    method ChunkAttempt(it: Item, uploadUrl: string, start: nat, attempt: nat, replies: seq<ChunkReply>)
      returns (result: AttemptResult, ghost sent: seq<Request>, ghost seen: seq<nat>)
      requires start < it.size && replies != []
      modifies this`log, this`lastBytes, this`uploadedBytes, this`percent, this`items
      ensures result.Stop? ==> result.finish == GaveUp
      ensures result.Retry? ==> attempt + 1 < MaxChunkRetries
      ensures ChunkRun(uploadUrl, it.size, start, attempt, replies)
              == Prepend(sent, seen, match result
                   case Moved(n) => ChunkRun(uploadUrl, it.size, n, 0, replies[1..])
                   case Retry => ChunkRun(uploadUrl, it.size, start, attempt + 1, replies[1..])
                   case Stop(f) => ChunkTrace([], [], f))
      ensures Snapshot() == Traced(old(Snapshot()), it.id, it.size, sent, seen)
    {
      ghost var st0 := Snapshot();
      var total := it.size;
      var end := ChunkEnd(start, total);
      var reply := replies[0];
      var reports := ChunkReports(start, total, reply.progress);
      var put := PutChunk(uploadUrl, ContentRange(start, end, total));
      PutChunkAttempt(it.id, put, reports, total);
      if reply.result.Accepted? {
        ChunkRunAcceptedStep(uploadUrl, total, start, attempt, replies);
        return Moved(end + 1), [put], reports;
      }
      ghost var pause;
      result, pause := ChunkFailed(uploadUrl, total, start, attempt, replies);
      sent, seen := [put] + pause, reports;
      TracedThen(st0, it.id, total, [put], reports, pause);
    }

    /**
     * A chunk PUT that was not accepted: a 308 naming the server's offset
     * moves on, the third failure stops the loop, and any other failure
     * sleeps the back-off (`pause`) before the retry.
     */
    method ChunkFailed(uploadUrl: string, total: nat, start: nat, attempt: nat, replies: seq<ChunkReply>)
      returns (result: AttemptResult, ghost pause: seq<Request>)
      requires start < total && replies != [] && !replies[0].result.Accepted?
      modifies this`log
      ensures result.Stop? ==> result.finish == GaveUp
      ensures result.Retry? ==> attempt + 1 < MaxChunkRetries
      ensures ChunkRun(uploadUrl, total, start, attempt, replies)
              == Prepend([PutChunk(uploadUrl, ContentRange(start, ChunkEnd(start, total), total))] + pause,
                         ChunkReports(start, total, replies[0].progress),
                         match result
                         case Moved(n) => ChunkRun(uploadUrl, total, n, 0, replies[1..])
                         case Retry => ChunkRun(uploadUrl, total, start, attempt + 1, replies[1..])
                         case Stop(f) => ChunkTrace([], [], f))
      ensures Snapshot() == old(Snapshot()).(log := old(log) + pause)
    {
      var put := PutChunk(uploadUrl, ContentRange(start, ChunkEnd(start, total), total));
      var failures := attempt + 1;
      var offset := ServerOffset(replies[0].result);
      if offset.Some? {
        ChunkRunResyncStep(uploadUrl, total, start, attempt, replies, offset.value);
        assert [put] + [] == [put] && log == old(log) + [];
        return Moved(offset.value + 1), [];
      }
      if failures >= MaxChunkRetries {
        ChunkRunGiveUpStep(uploadUrl, total, start, attempt, replies);
        assert [put] + [] == [put] && log == old(log) + [];
        assert ChunkTrace([put], ChunkReports(start, total, replies[0].progress), GaveUp)
               == Prepend([put], ChunkReports(start, total, replies[0].progress), ChunkTrace([], [], GaveUp));
        return Stop(GaveUp), [];
      }
      var backoff := Backoff(failures);
      ChunkRunRetryStep(uploadUrl, total, start, attempt, replies);
      SleepFor(backoff);
      assert [put] + [Sleep(backoff)] == [put, Sleep(backoff)];
      return Retry, [Sleep(backoff)];
    }

    /** One chunk PUT and the progress callbacks it fires. */
    method PutChunkAttempt(id: string, put: Request, reports: seq<nat>, total: nat)
      modifies this`log, this`lastBytes, this`uploadedBytes, this`percent, this`items
      ensures Snapshot() == Traced(old(Snapshot()), id, total, [put], reports)
    {
      ghost var st0 := Snapshot();
      Send(put);
      ReportProgress(id, reports, total);
      ProgressedKeepsLog(st0, st0.log + [put], id, reports, total);
    }

    /** `await sleep(ms)`: a back-off pause, recorded in the log. */
    method SleepFor(ms: nat)
      modifies this`log
      ensures Snapshot() == old(Snapshot()).(log := old(log) + [Sleep(ms)])
    {
      Send(Sleep(ms));
    }

    /**
     * The first half of `uploadResumable(item)`: the removal is cancelled,
     * the item starts, a session is requested and its URL preflighted. The
     * URL is returned only when the chunk loop may use it; otherwise the
     * caller falls back to the single PUT.
     */
    method OpenSession(it: Item, s: ResumableScript) returns (uploadUrl: Option<string>)
      modifies this`items, this`removeTimeouts, this`timers, this`log
      ensures uploadUrl.Some? <==> ChunksStart(s)
      ensures uploadUrl.Some? ==> uploadUrl == SessionUrl(s)
      ensures Snapshot() == Gated(old(Snapshot()), it, s)
    {
      BeginUpload(it.id);
      Send(SessionRequest(it.name));
      if s.session.Threw? {
        return None;
      }
      var meta := s.session.value;
      if !Truthy(meta.uploadUrl) && Truthy(meta.signedPutUrl) {
        return None;
      }
      if !Truthy(meta.uploadUrl) {
        return None;
      }
      var url := meta.uploadUrl.value;
      Send(Preflight(url));
      assert [SessionRequest(it.name)] + [Preflight(url)] == GateRequests(it, s);
      if s.preflight.Threw? {
        return None;
      }
      if !s.preflight.value.ok {
        return None;
      }
      if !Truthy(s.preflight.value.allowOrigin) {
        return None;
      }
      uploadUrl := Some(url);
    }

    /**
     * `uploadResumable(item)` against the answers `s`: a session, a CORS
     * preflight of its URL, the chunk loop and the notify. A failed or
     * unusable session or preflight, and a chunk that fails three times,
     * hand the whole file to the single PUT once.
     */
    method UploadResumable(it: Item, s: ResumableScript) returns (outcome: Outcome)
      modifies this
      ensures outcome == ResumableOutcome(it, s)
      ensures Snapshot() == ResumableEffect(old(Snapshot()), it, s, autoRemoveAfterMs)
    {
      ghost var st0 := Snapshot();
      var uploadUrl := OpenSession(it, s);
      if uploadUrl.None? {
        outcome := FallbackToSignedPut(it, s.fallback);
        return;
      }
      var finish := SendChunks(it, uploadUrl.value, s.chunks);
      assert Snapshot() == Looped(st0, it, s);
      if finish == GaveUp {
        outcome := FallbackToSignedPut(it, s.fallback);
        return;
      }
      if finish == Stalled {
        return Pending;
      }
      outcome := NotifyBackend(it, s.notify, s.session.value.objectName, s.session.value.gsPath);
    }

    /** `fallbackToSignedPut(item)`. */
    method FallbackToSignedPut(it: Item, s: SingleScript) returns (outcome: Outcome)
      modifies this
      ensures outcome == SinglePutOutcome(s)
      ensures Snapshot() == SinglePutEffect(old(Snapshot()), it, s, autoRemoveAfterMs)
    {
      outcome := UploadSinglePut(it, s);
    }

    /** `uploadFile(item)`: the item is marked uploading, then its size picks the flow. */
    method UploadFile(it: Item, s: UploadScript) returns (outcome: Outcome)
      modifies this
      ensures outcome == UploadFileOutcome(it, s)
      ensures Snapshot() == UploadFileEffect(old(Snapshot()), it, s, autoRemoveAfterMs)
    {
      Mark(it.id, UploadingPatch);
      if it.size >= ResumableThresholdBytes {
        outcome := UploadResumable(it, s.resumable);
      } else {
        outcome := UploadSinglePut(it, s.single);
      }
    }

    /**
     * `runWithConcurrency(queueItems, concurrencyLimit)`: `Math.max(1,
     * concurrencyLimit)` workers take items from the front of the queue; an
     * item the `snapshot` list (the `items` of the render that made the
     * handler) calls done is skipped, any other is uploaded and a failure
     * swallowed. An upload still awaiting a reply holds its worker, so the
     * loop stops when every worker is held.
     */
    method RunWithConcurrency(queueItems: seq<Item>, concurrencyLimit: int, snapshot: seq<Item>, scripts: seq<UploadScript>)
      returns (started: seq<string>, stalled: nat)
      requires |scripts| == |queueItems|
      modifies this
      ensures var run := Pool(old(Snapshot()), queueItems, scripts, snapshot, Workers(concurrencyLimit), autoRemoveAfterMs);
              Snapshot() == run.state && started == run.started && stalled == run.stalled
    {
      ghost var whole := Pool(Snapshot(), queueItems, scripts, snapshot, Workers(concurrencyLimit), autoRemoveAfterMs);
      var queue := queueItems;
      var jobs := scripts;
      var free := Workers(concurrencyLimit);
      started, stalled := [], 0;
      while queue != [] && free > 0
        invariant |jobs| == |queue|
        invariant var rest := Pool(Snapshot(), queue, jobs, snapshot, free, autoRemoveAfterMs);
                  whole.state == rest.state && whole.started == started + rest.started && whole.stalled == stalled + rest.stalled
        decreases |queue|
      {
        ghost var before := started;
        var taken, held := TakeNext(queue, jobs, snapshot, free);
        queue, jobs := queue[1..], jobs[1..];
        free := free - held;
        started, stalled := started + taken, stalled + held;
        AppendAssoc(before, taken, Pool(Snapshot(), queue, jobs, snapshot, free, autoRemoveAfterMs).started);
      }
      assert started + [] == started;
    }

    /**
     * One worker step: the head of the queue is skipped when the snapshot
     * calls it done and uploaded otherwise; `held` is 1 when the upload is
     * still awaiting a reply, which keeps its worker.
     */
    method TakeNext(queue: seq<Item>, jobs: seq<UploadScript>, snapshot: seq<Item>, free: nat)
      returns (taken: seq<string>, held: nat)
      requires |jobs| == |queue| && queue != [] && free > 0
      modifies this
      ensures held <= 1 && |taken| <= 1
      ensures var rest := Pool(Snapshot(), queue[1..], jobs[1..], snapshot, free - held, autoRemoveAfterMs);
              Pool(old(Snapshot()), queue, jobs, snapshot, free, autoRemoveAfterMs)
              == PoolRun(rest.state, taken + rest.started, rest.stalled + held)
    {
      var current := Current(snapshot, queue[0]);
      if current.status == Done {
        PoolSkipStep(Snapshot(), queue, jobs, snapshot, free, autoRemoveAfterMs);
        assert [] + Pool(Snapshot(), queue[1..], jobs[1..], snapshot, free, autoRemoveAfterMs).started
               == Pool(Snapshot(), queue[1..], jobs[1..], snapshot, free, autoRemoveAfterMs).started;
        return [], 0;
      }
      PoolUploadStep(Snapshot(), queue, jobs, snapshot, free, autoRemoveAfterMs);
      var outcome := UploadFile(current, jobs[0]);
      taken := [current.id];
      held := if outcome == Pending then 1 else 0;
    }

    /** `retryItem(id)`: an unknown id is ignored; otherwise the item is reset to idle and uploaded again. */
    method RetryItem(id: string, s: UploadScript)
      requires Valid()
      modifies this
      ensures Valid()
      ensures Snapshot() == RetryEffect(old(Snapshot()), id, s, autoRemoveAfterMs)
    {
      ghost var st := Snapshot();
      RetrySpec(st, id, s, autoRemoveAfterMs);
      var found := FindById(items, id);
      if found.None? {
        return;
      }
      var it := found.value;
      CancelAutoRemove(id);
      lastBytes := lastBytes[id := 0];
      fileLoaded := fileLoaded[id := 0];
      Mark(id, IdlePatch);
      ghost var prepared := Snapshot();
      assert prepared == RetryPrepared(st, id);
      var outcome := UploadFile(it, s);
      assert Snapshot() == UploadFileEffect(prepared, it, s, autoRemoveAfterMs);
    }

    /**
     * `onDrop(acceptedFiles)`, with `ids` the generated item ids and
     * `scripts` the network's answers for each file: placeholders are
     * pushed, the total grows by the files' sizes, the pool runs over the
     * new items, and once every upload settled the percent is set to 100
     * and the 600 ms timer that clears the uploading flag starts.
     */
    method OnDrop(acceptedFiles: seq<DroppedFile>, ids: seq<string>, scripts: seq<UploadScript>)
      requires |ids| == |acceptedFiles| && |scripts| == |acceptedFiles|
      requires Valid()
      modifies this
      ensures Valid()
      ensures Snapshot() == DropEffect(old(Snapshot()), acceptedFiles, ids, scripts, concurrency, autoRemoveAfterMs)
    {
      DropKeepsValid(Snapshot(), acceptedFiles, ids, scripts, concurrency, autoRemoveAfterMs);
      if |acceptedFiles| == 0 {
        return;
      }
      var snapshot := items;
      var newItems := PushPlaceholders(acceptedFiles, ids);
      var started, stalled := RunWithConcurrency(newItems, concurrency, snapshot, scripts);
      if stalled == 0 {
        UploadsFinished();
      }
    }

    /** The placeholders are pushed, the total grows by the files' sizes, and the percent is recomputed. */
    method PushPlaceholders(acceptedFiles: seq<DroppedFile>, ids: seq<string>) returns (newItems: seq<Item>)
      requires |ids| == |acceptedFiles|
      modifies this`items, this`uploading, this`totalBytes, this`percent
      ensures newItems == Placeholders(acceptedFiles, ids)
      ensures Snapshot() == Dropped(old(Snapshot()), acceptedFiles, ids)
    {
      newItems := Placeholders(acceptedFiles, ids);
      items := items + newItems;
      uploading := true;
      totalBytes := totalBytes + TotalSize(acceptedFiles);
      percent := Some(DropPercent(uploadedBytes, totalBytes));
    }

    /** `setPercent(100)`, then the `finally` block's 600 ms timer. */
    method UploadsFinished()
      modifies this`percent, this`timers, this`nextTimer
      ensures Snapshot() == Finished(old(Snapshot()))
    {
      percent := Some(100);
      timers := timers[nextTimer := StopUploading(StopUploadingAfterMs)];
      nextTimer := nextTimer + 1;
    }
  }
}
