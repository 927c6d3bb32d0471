/**
 * The upload manager's whole state as one value, and the effect of each of
 * its operations on that value in closed form. The class in module
 * UploadDropzone changes its fields step by step and is proved to end in
 * exactly the state these functions give; the properties of the operations
 * are proved here, about the functions.
 */
module DropzoneState {
  import opened Common
  import opened UploadChunks
  import opened UploadProgress
  import opened UploadItems
  import opened UploadFlows

  /** A pending `setTimeout` callback: one item's auto-remove, or the end-of-batch `setUploading(false)`. */
  datatype Timer = RemoveItem(id: string, delayMs: nat) | StopUploading(delayMs: nat)

  /** The delay of the timer that clears the uploading flag after a batch. */
  const StopUploadingAfterMs: nat := 600

  /**
   * The auto-remove bookkeeping: the timer id recorded per item, the
   * pending timers keyed by the ids `setTimeout` hands out, and the next id.
   */
  datatype TimerTable = TimerTable(removeTimeouts: map<string, nat>, pending: map<nat, Timer>, next: nat)

  /**
   * The component state and refs: the item list, the uploading flag, the
   * aggregated percent (null until the first drop), the byte totals, the
   * per-file maps, the timers, the requests sent and the records passed to
   * `onComplete`.
   */
  datatype State = State(
    items: seq<Item>,
    uploading: bool,
    percent: Option<nat>,
    totalBytes: nat,
    uploadedBytes: nat,
    fileLoaded: map<string, nat>,
    lastBytes: map<string, nat>,
    timers: TimerTable,
    log: seq<Request>,
    completions: seq<PhotoRecord>)

  /**
   * Timer bookkeeping: ids are positive and below the next id to hand out,
   * every id in the auto-remove map names a pending removal of that item,
   * and every pending removal is the one the map records for its item.
   */
  predicate ValidTimers(tt: TimerTable) {
    && tt.next >= 1
    && (forall t :: t in tt.pending ==> 1 <= t < tt.next)
    && (forall id :: id in tt.removeTimeouts ==>
          tt.removeTimeouts[id] in tt.pending
          && tt.pending[tt.removeTimeouts[id]].RemoveItem?
          && tt.pending[tt.removeTimeouts[id]].id == id)
    && (forall t :: t in tt.pending && tt.pending[t].RemoveItem? ==>
          tt.pending[t].id in tt.removeTimeouts && tt.removeTimeouts[tt.pending[t].id] == t)
  }

  predicate Valid(st: State) {
    ValidTimers(st.timers)
  }

  /** `fileProgressMeta[id]?.lastBytes ?? 0`. */
  function LastBytes(st: State, id: string): nat {
    if id in st.lastBytes then st.lastBytes[id] else 0
  }

  // ---------------------------------------------------------- progress

  /**
   * The state after a stream of absolute byte counts for one file: the
   * counter grows by the stream's contribution, the percent is recomputed
   * when something was added and the total is known, the last count is
   * recorded, and the item shows the last count.
   */
  function Progressed(st: State, id: string, reports: seq<nat>, total: nat): State {
    var c := Contribution(LastBytes(st, id), reports);
    st.(uploadedBytes := st.uploadedBytes + c,
        percent := if c > 0 && st.totalBytes > 0 then Some(QueuePercent(st.uploadedBytes + c, st.totalBytes)) else st.percent,
        lastBytes := if reports == [] then st.lastBytes else st.lastBytes[id := reports[|reports| - 1]],
        items := UpdateItem(st.items, id, ReportsPatch(reports, total)))
  }

  lemma MergeReportsPatch(a: seq<nat>, b: seq<nat>, total: nat)
    ensures Merge(ReportsPatch(a, total), ReportsPatch(b, total)) == ReportsPatch(a + b, total)
  {
    if b == [] {
      assert a + b == a;
    } else {
      assert (a + b)[|a + b| - 1] == b[|b| - 1];
    }
  }

  /** Reporting `a` and then `b` is reporting `a + b`. */
  lemma ProgressedConcat(st: State, id: string, a: seq<nat>, b: seq<nat>, total: nat)
    ensures Progressed(Progressed(st, id, a, total), id, b, total) == Progressed(st, id, a + b, total)
  {
    var mid := Progressed(st, id, a, total);
    var lhs := Progressed(mid, id, b, total);
    var rhs := Progressed(st, id, a + b, total);
    assert LastBytes(mid, id) == LastOr(LastBytes(st, id), a);
    ContributionAppend(LastBytes(st, id), a, b);
    assert lhs.uploadedBytes == rhs.uploadedBytes;
    UpdateItemTwice(st.items, id, ReportsPatch(a, total), ReportsPatch(b, total));
    MergeReportsPatch(a, b, total);
    assert lhs.items == rhs.items;
    if b == [] {
      assert a + b == a;
    } else {
      assert (a + b)[|a + b| - 1] == b[|b| - 1];
    }
    assert lhs.lastBytes == rhs.lastBytes;
  }

  /** The state after the loop sent `requests` and its callbacks saw `reports`. */
  function Traced(st: State, id: string, total: nat, requests: seq<Request>, reports: seq<nat>): State {
    Progressed(st, id, reports, total).(log := st.log + requests)
  }

  /** Two stretches of the chunk loop make one. */
  lemma TracedAppend(st: State, id: string, total: nat, r1: seq<Request>, p1: seq<nat>, r2: seq<Request>, p2: seq<nat>)
    ensures Traced(Traced(st, id, total, r1, p1), id, total, r2, p2) == Traced(st, id, total, r1 + r2, p1 + p2)
  {
    var mid := Progressed(st, id, p1, total);
    assert Progressed(mid.(log := st.log + r1), id, p2, total) == Progressed(mid, id, p2, total).(log := st.log + r1);
    ProgressedConcat(st, id, p1, p2, total);
    assert st.log + r1 + r2 == st.log + (r1 + r2);
  }

  /**
   * Progress never lowers the byte counter, never touches the total, and a
   * percent it sets is at most 100.
   */
  lemma ProgressedBounds(st: State, id: string, reports: seq<nat>, total: nat)
    ensures Progressed(st, id, reports, total).uploadedBytes >= st.uploadedBytes
    ensures Progressed(st, id, reports, total).totalBytes == st.totalBytes
    ensures Progressed(st, id, reports, total).percent == st.percent
            || Progressed(st, id, reports, total).percent.value <= 100
    ensures Contribution(LastBytes(st, id), reports) == 0 ==> Progressed(st, id, reports, total).percent == st.percent
  {
  }

  /** A stream that only grows adds exactly the bytes it moved past the last recorded count. */
  lemma ProgressedGrowing(st: State, id: string, reports: seq<nat>, total: nat)
    requires NonDecreasingFrom(LastBytes(st, id), reports)
    ensures Progressed(st, id, reports, total).uploadedBytes
            == st.uploadedBytes + LastOr(LastBytes(st, id), reports) - LastBytes(st, id)
  {
    ContributionOfGrowingStream(LastBytes(st, id), reports);
  }

  // ------------------------------------------------------------- timers

  /** `cancelAutoRemove(id)`: clear the item's pending removal, if any, and forget its id. */
  function Cancel(tt: TimerTable, id: string): TimerTable {
    if id in tt.removeTimeouts
    then tt.(pending := tt.pending - {tt.removeTimeouts[id]}, removeTimeouts := tt.removeTimeouts - {id})
    else tt
  }

  /** `scheduleAutoRemove(id)`: nothing for a delay of 0 or less, otherwise replace the item's removal by a new one. */
  function Schedule(tt: TimerTable, id: string, delay: int): TimerTable {
    if delay <= 0 then tt
    else
      var c := Cancel(tt, id);
      c.(pending := c.pending[c.next := RemoveItem(id, delay)], removeTimeouts := c.removeTimeouts[id := c.next], next := c.next + 1)
  }

  /** A new pending timer with the next id. */
  function Start(tt: TimerTable, t: Timer): TimerTable {
    tt.(pending := tt.pending[tt.next := t], next := tt.next + 1)
  }

  function Cancelled(st: State, id: string): State {
    st.(timers := Cancel(st.timers, id))
  }

  /** The callback of pending timer `tid` runs; a cleared or unknown timer does nothing. */
  function Fired(st: State, tid: nat): State {
    if tid !in st.timers.pending then st
    else match st.timers.pending[tid]
      case RemoveItem(id, _) =>
        st.(items := RemoveById(st.items, id),
            timers := st.timers.(removeTimeouts := st.timers.removeTimeouts - {id}, pending := st.timers.pending - {tid}))
      case StopUploading(_) => st.(uploading := false, timers := st.timers.(pending := st.timers.pending - {tid}))
  }

  /** Every auto-remove cleared; other pending timers stay. */
  function ClearRemovals(tt: TimerTable): TimerTable {
    tt.(pending := WithoutRemovals(tt.pending, tt.removeTimeouts), removeTimeouts := map[])
  }

  /** The pending timers that no auto-remove entry names. */
  function WithoutRemovals(pending: map<nat, Timer>, removeTimeouts: map<string, nat>): map<nat, Timer> {
    map t | t in pending && t !in removeTimeouts.Values :: pending[t]
  }

  /** `resetProgress()`: counters and maps emptied, percent null, every auto-remove cleared, list emptied. */
  function Reset(st: State): State {
    st.(totalBytes := 0, uploadedBytes := 0, fileLoaded := map[], lastBytes := map[], percent := None,
        timers := ClearRemovals(st.timers), items := [])
  }

  /** At most one removal is pending per item. */
  lemma AtMostOneRemoval(tt: TimerTable, id: string, t1: nat, t2: nat)
    requires ValidTimers(tt)
    requires t1 in tt.pending && tt.pending[t1].RemoveItem? && tt.pending[t1].id == id
    requires t2 in tt.pending && tt.pending[t2].RemoveItem? && tt.pending[t2].id == id
    ensures t1 == t2
  {
  }

  /**
   * Cancelling keeps the bookkeeping valid, leaves no removal pending for
   * the item, keeps the next id, and leaves every other item's removal alone.
   */
  lemma CancelSpec(tt: TimerTable, id: string)
    requires ValidTimers(tt)
    ensures ValidTimers(Cancel(tt, id))
    ensures id !in Cancel(tt, id).removeTimeouts
    ensures forall t :: t in Cancel(tt, id).pending ==> !(Cancel(tt, id).pending[t].RemoveItem? && Cancel(tt, id).pending[t].id == id)
    ensures forall other :: other != id ==>
              (other in Cancel(tt, id).removeTimeouts <==> other in tt.removeTimeouts)
              && (other in tt.removeTimeouts ==> Cancel(tt, id).removeTimeouts[other] == tt.removeTimeouts[other])
    ensures Cancel(tt, id).next == tt.next
    ensures Cancel(Cancel(tt, id), id) == Cancel(tt, id)
  {
  }

  /**
   * Scheduling with a delay of 0 or less changes nothing; otherwise exactly
   * one removal is pending for the item: the new timer, with that delay.
   * Other items' removals are untouched either way.
   */
  lemma ScheduleSpec(tt: TimerTable, id: string, delay: int)
    requires ValidTimers(tt)
    ensures ValidTimers(Schedule(tt, id, delay))
    ensures delay <= 0 ==> Schedule(tt, id, delay) == tt
    ensures delay > 0 ==>
              var r := Schedule(tt, id, delay);
              id in r.removeTimeouts && r.removeTimeouts[id] == tt.next
              && r.pending[tt.next] == RemoveItem(id, delay)
              && forall t :: t in r.pending && r.pending[t].RemoveItem? && r.pending[t].id == id ==> t == tt.next
    ensures forall other :: other != id ==>
              (other in Schedule(tt, id, delay).removeTimeouts <==> other in tt.removeTimeouts)
              && (other in tt.removeTimeouts ==> Schedule(tt, id, delay).removeTimeouts[other] == tt.removeTimeouts[other])
  {
    CancelSpec(tt, id);
  }

  /** Starting a timer that is not a removal keeps the bookkeeping valid. */
  lemma StartSpec(tt: TimerTable, ms: nat)
    requires ValidTimers(tt)
    ensures ValidTimers(Start(tt, StopUploading(ms)))
    ensures Start(tt, StopUploading(ms)).removeTimeouts == tt.removeTimeouts
  {
  }

  /**
   * Firing an item's removal takes exactly that id out of the list and out
   * of the auto-remove map; the end-of-batch timer clears the uploading flag;
   * a removal that was cancelled never fires.
   */
  lemma FiredSpec(st: State, tid: nat)
    requires Valid(st)
    ensures Valid(Fired(st, tid))
    ensures tid in st.timers.pending && st.timers.pending[tid].RemoveItem? ==>
              var id := st.timers.pending[tid].id;
              Fired(st, tid).items == RemoveById(st.items, id)
              && !HasId(Fired(st, tid).items, id)
              && Fired(st, tid).timers.removeTimeouts == st.timers.removeTimeouts - {id}
    ensures tid in st.timers.pending && st.timers.pending[tid].StopUploading? ==>
              Fired(st, tid) == st.(uploading := false, timers := Fired(st, tid).timers)
    ensures forall id :: id in st.timers.removeTimeouts ==>
              Fired(Cancelled(st, id), st.timers.removeTimeouts[id]) == Cancelled(st, id)
  {
    if tid in st.timers.pending && st.timers.pending[tid].RemoveItem? {
      RemoveByIdSpec(st.items, st.timers.pending[tid].id);
    }
  }

  /** Clearing keeps the bookkeeping valid, leaves no removal pending and keeps every other timer. */
  lemma ClearRemovalsSpec(tt: TimerTable)
    requires ValidTimers(tt)
    ensures ValidTimers(ClearRemovals(tt))
    ensures forall t :: t in ClearRemovals(tt).pending ==> ClearRemovals(tt).pending[t].StopUploading?
    ensures forall t :: t in tt.pending && tt.pending[t].StopUploading? ==>
              t in ClearRemovals(tt).pending && ClearRemovals(tt).pending[t] == tt.pending[t]
  {
    var r := ClearRemovals(tt);
    forall t | t in tt.pending && tt.pending[t].StopUploading?
      ensures t in r.pending
    {
      forall id | id in tt.removeTimeouts ensures tt.removeTimeouts[id] != t {
      }
    }
    assert forall id :: id in tt.removeTimeouts ==> tt.removeTimeouts[id] in tt.removeTimeouts.Values;
  }

  // ------------------------------------------------------- upload flows

  function Patched(st: State, id: string, p: Patch): State {
    st.(items := UpdateItem(st.items, id, p))
  }

  function Completions(o: Outcome): seq<PhotoRecord> {
    if o.Completed? then [o.photo] else []
  }

  /** The created record goes to `onComplete` and the item's removal is scheduled. */
  function Delivered(st: State, id: string, photo: PhotoRecord, delay: int): State {
    st.(completions := st.completions + [photo], timers := Schedule(st.timers, id, delay))
  }

  /**
   * The last step of both flows: the backend is told of the stored object;
   * the item finishes done, with the record delivered, or in error.
   */
  function Notified(st: State, it: Item, notify: Reply<PhotoRecord>, objectName: Option<string>, gsPath: Option<string>, delay: int): State {
    var notified := st.(log := st.log + [NotifyUpload(it.name, objectName, gsPath, it.size)]);
    match notify
    case Threw(m) => Patched(notified, it.id, ErrorPatch(m))
    case Resolved(photo) => Delivered(Patched(notified, it.id, DonePatch(objectName, gsPath, it.size)), it.id, photo, delay)
  }

  lemma NotifiedSummary(st: State, it: Item, notify: Reply<PhotoRecord>, objectName: Option<string>, gsPath: Option<string>, delay: int)
    ensures var r := Notified(st, it, notify, objectName, gsPath, delay);
            && r.log == st.log + [NotifyUpload(it.name, objectName, gsPath, it.size)]
            && r.completions == st.completions + (if notify.Resolved? then [notify.value] else [])
            && r.timers == (if notify.Resolved? then Schedule(st.timers, it.id, delay) else st.timers)
            && r.items == UpdateItem(st.items, it.id, if notify.Resolved? then DonePatch(objectName, gsPath, it.size) else ErrorPatch(notify.message))
            && r.uploadedBytes == st.uploadedBytes && r.totalBytes == st.totalBytes && r.uploading == st.uploading
  {
  }

  /**
   * `uploadSinglePut(item)` against the answers `s`, step by step: cancel the
   * removal, start the item, request the signed URL; on a complete target reset
   * the file's counters, PUT the file while reporting progress, notify, and
   * finish the item done or in error.
   */
  function SinglePutEffect(st: State, it: Item, s: SingleScript, delay: int): State {
    var started := Patched(Cancelled(st, it.id), it.id, StartPatch).(log := st.log + [SignedUrlRequest(it.name)]);
    match SignedTarget(s)
    case None => Patched(started, it.id, ErrorPatch(SinglePutOutcome(s).message))
    case Some((url, objectName, gsPath)) => Transferred(started, it, s, url, objectName, gsPath, delay)
  }

  /**
   * The single PUT once the signed target is complete: the file's counters
   * are reset, the PUT reports its progress, and a stored file is notified.
   */
  function Transferred(st: State, it: Item, s: SingleScript, url: string, objectName: string, gsPath: string, delay: int): State {
    var sent := Progressed(Armed(st, it.id, s.progress, url), it.id, s.progress, it.size);
    match s.put
    case TransferFailed(m) => Patched(sent, it.id, ErrorPatch(m))
    case Stored => Notified(sent, it, s.notify, Some(objectName), Some(gsPath), delay)
  }

  /** The file's counters reset and its PUT sent; `fileLoadedMap` ends at the last loaded count, or 0. */
  function Armed(st: State, id: string, progress: seq<nat>, url: string): State {
    st.(lastBytes := st.lastBytes[id := 0], fileLoaded := st.fileLoaded[id := LastOr(0, progress)], log := st.log + [PutFile(url)])
  }

  /**
   * `uploadResumable(item)` against the answers `s`: cancel the removal, start
   * the item, request a session and preflight its URL; fall back to the
   * single PUT when either fails; otherwise run the chunk loop and, when every
   * chunk is in, notify and finish the item.
   */
  function ResumableEffect(st: State, it: Item, s: ResumableScript, delay: int): State {
    if !ChunksStart(s) then SinglePutEffect(Gated(st, it, s), it, s.fallback, delay)
    else
      var looped := Looped(st, it, s);
      match ResumableTrace(it, s).end
      case GaveUp => SinglePutEffect(looped, it, s.fallback, delay)
      case Stalled => looped
      case AllSent => Notified(looped, it, s.notify, s.session.value.objectName, s.session.value.gsPath, delay)
  }

  /** `uploadFile(item)`: mark the item uploading, then run the strategy its size selects. */
  function UploadFileEffect(st: State, it: Item, s: UploadScript, delay: int): State {
    var marked := Patched(st, it.id, UploadingPatch);
    if ChooseStrategy(it.size) == Resumable then ResumableEffect(marked, it, s.resumable, delay)
    else SinglePutEffect(marked, it, s.single, delay)
  }

  /** The timers after an upload of `id` ending in `o`: its removal cancelled, and rescheduled if it completed. */
  function TimersAfter(tt: TimerTable, id: string, o: Outcome, delay: int): TimerTable {
    if o.Completed? then Schedule(Cancel(tt, id), id, delay) else Cancel(tt, id)
  }

  lemma SinglePutTimers(st: State, it: Item, s: SingleScript, delay: int)
    ensures SinglePutEffect(st, it, s, delay).timers == TimersAfter(st.timers, it.id, SinglePutOutcome(s), delay)
  {
  }

  lemma SinglePutKeepsValid(st: State, it: Item, s: SingleScript, delay: int)
    requires Valid(st)
    ensures Valid(SinglePutEffect(st, it, s, delay))
  {
    SinglePutTimers(st, it, s, delay);
    TimersAfterSpec(st.timers, it.id, SinglePutOutcome(s), delay);
  }

  /**
   * After an upload the item's removal is pending exactly when the upload
   * completed and the delay is positive; other items' removals are unchanged.
   */
  lemma TimersAfterSpec(tt: TimerTable, id: string, o: Outcome, delay: int)
    requires ValidTimers(tt)
    ensures ValidTimers(TimersAfter(tt, id, o, delay))
    ensures id in TimersAfter(tt, id, o, delay).removeTimeouts <==> o.Completed? && delay > 0
    ensures forall other :: other != id ==>
              (other in TimersAfter(tt, id, o, delay).removeTimeouts <==> other in tt.removeTimeouts)
              && (other in tt.removeTimeouts ==> TimersAfter(tt, id, o, delay).removeTimeouts[other] == tt.removeTimeouts[other])
  {
    CancelSpec(tt, id);
    ScheduleSpec(Cancel(tt, id), id, delay);
  }

  /**
   * The single PUT in closed form: the item ends as the flow's net patch
   * makes it, the requests are the flow's, the counter grows by the
   * contribution of the PUT's progress counted from zero, `onComplete`
   * receives the record exactly when the upload completed, and the totals
   * and uploading flag are untouched.
   */
  lemma SinglePutEffectSummary(st: State, it: Item, s: SingleScript, delay: int)
    ensures var r := SinglePutEffect(st, it, s, delay);
            && r.items == UpdateItem(st.items, it.id, SinglePutPatch(it, s))
            && r.log == st.log + SinglePutRequests(it, s)
            && r.uploadedBytes == st.uploadedBytes + Contribution(0, SinglePutReports(s))
            && r.completions == st.completions + Completions(SinglePutOutcome(s))
            && r.timers == TimersAfter(st.timers, it.id, SinglePutOutcome(s), delay)
            && r.totalBytes == st.totalBytes && r.uploading == st.uploading
  {
    var r := SinglePutEffect(st, it, s, delay);
    var started := UpdateItem(st.items, it.id, StartPatch);
    match SignedTarget(s)
    case None =>
      UpdateItemTwice(st.items, it.id, StartPatch, ErrorPatch(SinglePutOutcome(s).message));
    case Some((url, objectName, gsPath)) =>
      var withProgress := Merge(StartPatch, ReportsPatch(s.progress, it.size));
      UpdateItemTwice(st.items, it.id, StartPatch, ReportsPatch(s.progress, it.size));
      match s.put
      case TransferFailed(m) =>
        UpdateItemTwice(st.items, it.id, withProgress, ErrorPatch(m));
      case Stored =>
        match s.notify
        case Threw(m) =>
          UpdateItemTwice(st.items, it.id, withProgress, ErrorPatch(m));
        case Resolved(_) =>
          UpdateItemTwice(st.items, it.id, withProgress, DonePatch(Some(objectName), Some(gsPath), it.size));
  }

  /**
   * The resumable flow in closed form: the item ends as the flow's net
   * patch makes it, the requests are the flow's, the counter grows by the
   * chunk loop's contribution (from the file's last recorded count) plus the
   * fallback's (from zero), and `onComplete` receives the record exactly when
   * the upload completed.
   */
  lemma ResumableEffectSummary(st: State, it: Item, s: ResumableScript, delay: int)
    ensures var r := ResumableEffect(st, it, s, delay);
            && r.items == UpdateItem(st.items, it.id, ResumablePatch(it, s))
            && r.log == st.log + ResumableRequests(it, s)
            && r.uploadedBytes == st.uploadedBytes + Contribution(LastBytes(st, it.id), LoopReports(it, s))
                                  + Contribution(0, FallbackReports(it, s))
            && r.completions == st.completions + Completions(ResumableOutcome(it, s))
            && r.timers == TimersAfter(st.timers, it.id, ResumableOutcome(it, s), delay)
            && r.totalBytes == st.totalBytes && r.uploading == st.uploading
  {
    ResumableItemsAfter(st, it, s, delay);
    ResumableLogAfter(st, it, s, delay);
    ResumableBytesAfter(st, it, s, delay);
    ResumableCompletionsAfter(st, it, s, delay);
  }

  /** The state after the session request, the preflight and (when they pass) the chunk loop. */
  function Gated(st: State, it: Item, s: ResumableScript): State {
    Patched(Cancelled(st, it.id), it.id, StartPatch).(log := st.log + GateRequests(it, s))
  }

  function Looped(st: State, it: Item, s: ResumableScript): State
    requires ChunksStart(s)
  {
    var g := Gated(st, it, s);
    Progressed(g, it.id, ResumableTrace(it, s).reports, it.size).(log := g.log + ResumableTrace(it, s).requests)
  }

  lemma ResumableItemsAfter(st: State, it: Item, s: ResumableScript, delay: int)
    ensures ResumableEffect(st, it, s, delay).items == UpdateItem(st.items, it.id, ResumablePatch(it, s))
  {
    if !ChunksStart(s) {
      SinglePutEffectSummary(Gated(st, it, s), it, s.fallback, delay);
      UpdateItemTwice(st.items, it.id, StartPatch, SinglePutPatch(it, s.fallback));
    } else {
      var t := ResumableTrace(it, s);
      var afterLoop := Merge(StartPatch, ReportsPatch(t.reports, it.size));
      UpdateItemTwice(st.items, it.id, StartPatch, ReportsPatch(t.reports, it.size));
      assert Looped(st, it, s).items == UpdateItem(st.items, it.id, afterLoop);
      match t.end {
        case GaveUp =>
          SinglePutEffectSummary(Looped(st, it, s), it, s.fallback, delay);
          UpdateItemTwice(st.items, it.id, afterLoop, SinglePutPatch(it, s.fallback));
        case Stalled =>
        case AllSent =>
          var last := if s.notify.Threw? then ErrorPatch(s.notify.message)
                      else DonePatch(s.session.value.objectName, s.session.value.gsPath, it.size);
          UpdateItemTwice(st.items, it.id, afterLoop, last);
          assert ResumablePatch(it, s) == Merge(afterLoop, last);
      }
    }
  }

  lemma ResumableLogAfter(st: State, it: Item, s: ResumableScript, delay: int)
    ensures ResumableEffect(st, it, s, delay).log == st.log + ResumableRequests(it, s)
  {
    if !ChunksStart(s) {
      ResumableLogGated(st, it, s, delay);
    } else if ResumableTrace(it, s).end == GaveUp {
      ResumableLogGaveUp(st, it, s, delay);
    } else {
      ResumableLogLooped(st, it, s, delay);
    }
  }

  lemma ResumableLogGated(st: State, it: Item, s: ResumableScript, delay: int)
    requires !ChunksStart(s)
    ensures ResumableEffect(st, it, s, delay).log == st.log + ResumableRequests(it, s)
  {
    SinglePutEffectSummary(Gated(st, it, s), it, s.fallback, delay);
    assert ResumableRequests(it, s) == GateRequests(it, s) + [] + SinglePutRequests(it, s.fallback);
  }

  lemma ResumableLogGaveUp(st: State, it: Item, s: ResumableScript, delay: int)
    requires ChunksStart(s) && ResumableTrace(it, s).end == GaveUp
    ensures ResumableEffect(st, it, s, delay).log == st.log + ResumableRequests(it, s)
  {
    var t := ResumableTrace(it, s);
    var looped := Looped(st, it, s);
    var tail := SinglePutRequests(it, s.fallback);
    assert looped.log == st.log + GateRequests(it, s) + t.requests;
    SinglePutEffectSummary(looped, it, s.fallback, delay);
    assert ResumableEffect(st, it, s, delay) == SinglePutEffect(looped, it, s.fallback, delay);
    assert FallsBack(it, s) && TailRequests(it, s) == tail;
    assert ResumableRequests(it, s) == GateRequests(it, s) + t.requests + tail;
  }

  lemma ResumableLogLooped(st: State, it: Item, s: ResumableScript, delay: int)
    requires ChunksStart(s) && ResumableTrace(it, s).end != GaveUp
    ensures ResumableEffect(st, it, s, delay).log == st.log + ResumableRequests(it, s)
  {
    if ResumableTrace(it, s).end == AllSent {
      ResumableLogAllSent(st, it, s, delay);
    } else {
      ResumableLogStalled(st, it, s, delay);
    }
  }

  lemma ResumableLogAllSent(st: State, it: Item, s: ResumableScript, delay: int)
    requires ChunksStart(s) && ResumableTrace(it, s).end == AllSent
    ensures ResumableEffect(st, it, s, delay).log == st.log + ResumableRequests(it, s)
  {
    var t := ResumableTrace(it, s);
    var looped := Looped(st, it, s);
    var tail := [ResumableNotify(it, s)];
    assert looped.log == st.log + GateRequests(it, s) + t.requests;
    NotifiedSummary(looped, it, s.notify, s.session.value.objectName, s.session.value.gsPath, delay);
    assert TailRequests(it, s) == tail;
    assert ResumableRequests(it, s) == GateRequests(it, s) + t.requests + tail;
    assert ResumableEffect(st, it, s, delay).log == looped.log + tail;
  }

  lemma ResumableLogStalled(st: State, it: Item, s: ResumableScript, delay: int)
    requires ChunksStart(s) && ResumableTrace(it, s).end == Stalled
    ensures ResumableEffect(st, it, s, delay).log == st.log + ResumableRequests(it, s)
  {
    var t := ResumableTrace(it, s);
    assert TailRequests(it, s) == [];
    assert ResumableRequests(it, s) == GateRequests(it, s) + t.requests + [];
    assert Looped(st, it, s).log == st.log + GateRequests(it, s) + t.requests;
  }

  lemma ResumableBytesAfter(st: State, it: Item, s: ResumableScript, delay: int)
    ensures ResumableEffect(st, it, s, delay).uploadedBytes
            == st.uploadedBytes + Contribution(LastBytes(st, it.id), LoopReports(it, s)) + Contribution(0, FallbackReports(it, s))
  {
    assert LastBytes(Gated(st, it, s), it.id) == LastBytes(st, it.id);
    if !ChunksStart(s) {
      SinglePutEffectSummary(Gated(st, it, s), it, s.fallback, delay);
    } else {
      match ResumableTrace(it, s).end {
        case GaveUp =>
          SinglePutEffectSummary(Looped(st, it, s), it, s.fallback, delay);
        case Stalled =>
        case AllSent =>
          assert FallbackReports(it, s) == [];
      }
    }
  }

  lemma ResumableCompletionsAfter(st: State, it: Item, s: ResumableScript, delay: int)
    ensures var r := ResumableEffect(st, it, s, delay);
            && r.completions == st.completions + Completions(ResumableOutcome(it, s))
            && r.timers == TimersAfter(st.timers, it.id, ResumableOutcome(it, s), delay)
            && r.totalBytes == st.totalBytes && r.uploading == st.uploading
  {
    assert Cancel(Cancel(st.timers, it.id), it.id) == Cancel(st.timers, it.id);
    if !ChunksStart(s) {
      SinglePutEffectSummary(Gated(st, it, s), it, s.fallback, delay);
    } else if ResumableTrace(it, s).end == GaveUp {
      ResumableCompletionsGaveUp(st, it, s, delay);
    } else {
      ResumableCompletionsLooped(st, it, s, delay);
    }
  }

  lemma ResumableCompletionsGaveUp(st: State, it: Item, s: ResumableScript, delay: int)
    requires ChunksStart(s) && ResumableTrace(it, s).end == GaveUp
    ensures var r := ResumableEffect(st, it, s, delay);
            && r.completions == st.completions + Completions(ResumableOutcome(it, s))
            && r.timers == TimersAfter(st.timers, it.id, ResumableOutcome(it, s), delay)
            && r.totalBytes == st.totalBytes && r.uploading == st.uploading
  {
    assert Cancel(Cancel(st.timers, it.id), it.id) == Cancel(st.timers, it.id);
    SinglePutEffectSummary(Looped(st, it, s), it, s.fallback, delay);
  }

  lemma ResumableCompletionsLooped(st: State, it: Item, s: ResumableScript, delay: int)
    requires ChunksStart(s) && ResumableTrace(it, s).end != GaveUp
    ensures var r := ResumableEffect(st, it, s, delay);
            && r.completions == st.completions + Completions(ResumableOutcome(it, s))
            && r.timers == TimersAfter(st.timers, it.id, ResumableOutcome(it, s), delay)
            && r.totalBytes == st.totalBytes && r.uploading == st.uploading
  {
    if ResumableTrace(it, s).end == AllSent {
      NotifiedSummary(Looped(st, it, s), it, s.notify, s.session.value.objectName, s.session.value.gsPath, delay);
    }
  }

  /** `uploadFile` in closed form, for either strategy; it keeps the timer bookkeeping valid. */
  lemma UploadFileSummary(st: State, it: Item, s: UploadScript, delay: int)
    ensures var r := UploadFileEffect(st, it, s, delay);
            && r.items == UpdateItem(st.items, it.id, UploadFilePatch(it, s))
            && r.log == st.log + UploadFileRequests(it, s)
            && r.completions == st.completions + Completions(UploadFileOutcome(it, s))
            && r.timers == TimersAfter(st.timers, it.id, UploadFileOutcome(it, s), delay)
            && r.totalBytes == st.totalBytes && r.uploading == st.uploading
            && r.uploadedBytes >= st.uploadedBytes
    ensures Valid(st) ==> Valid(UploadFileEffect(st, it, s, delay))
  {
    var marked := Patched(st, it.id, UploadingPatch);
    if ChooseStrategy(it.size) == Resumable {
      ResumableEffectSummary(marked, it, s.resumable, delay);
      UpdateItemTwice(st.items, it.id, UploadingPatch, ResumablePatch(it, s.resumable));
    } else {
      SinglePutEffectSummary(marked, it, s.single, delay);
      UpdateItemTwice(st.items, it.id, UploadingPatch, SinglePutPatch(it, s.single));
    }
    if Valid(st) {
      TimersAfterSpec(st.timers, it.id, UploadFileOutcome(it, s), delay);
    }
  }

  // -------------------------------------------------------- worker pool

  /** The item a worker dispatches: the drop-time snapshot's entry for the id, else the queued item itself. */
  function Current(snapshot: seq<Item>, queued: Item): Item {
    match FindById(snapshot, queued.id)
    case Some(x) => x
    case None => queued
  }

  /** What a pool run did: the final state, the ids it uploaded in order, and how many uploads never settled. */
  datatype PoolRun = PoolRun(state: State, started: seq<string>, stalled: nat)

  /**
   * The workers drain `queue` in order, `free` of them still able to take an
   * item: an item whose snapshot status is done is skipped, any other is
   * uploaded; a failed upload is swallowed and its worker goes on, while an
   * upload still awaiting a reply holds its worker for good. Once every
   * worker is held, the rest of the queue is never taken.
   */
  function Pool(st: State, queue: seq<Item>, scripts: seq<UploadScript>, snapshot: seq<Item>, free: nat, delay: int): PoolRun
    requires |scripts| == |queue|
    decreases |queue|, 1
  {
    if queue == [] || free == 0 then PoolRun(st, [], 0)
    else Dispatch(st, queue, scripts, snapshot, free, delay)
  }

  /** A free worker takes the head of the queue; the rest of the queue goes on to the pool. */
  function Dispatch(st: State, queue: seq<Item>, scripts: seq<UploadScript>, snapshot: seq<Item>, free: nat, delay: int): PoolRun
    requires |scripts| == |queue| && queue != [] && free > 0
    decreases |queue|, 0
  {
    var current := Current(snapshot, queue[0]);
    if current.status == Done then Pool(st, queue[1..], scripts[1..], snapshot, free, delay)
    else
      var pending := UploadFileOutcome(current, scripts[0]) == Pending;
      var rest := Pool(UploadFileEffect(st, current, scripts[0], delay), queue[1..], scripts[1..], snapshot,
                       if pending then free - 1 else free, delay);
      PoolRun(rest.state, [current.id] + rest.started, rest.stalled + if pending then 1 else 0)
  }

  /** The ids of the queued items that are not done in the snapshot, in queue order. */
  function Eligible(queue: seq<Item>, snapshot: seq<Item>): seq<string>
    decreases |queue|
  {
    if queue == [] then []
    else if Current(snapshot, queue[0]).status == Done then Eligible(queue[1..], snapshot)
    else [Current(snapshot, queue[0]).id] + Eligible(queue[1..], snapshot)
  }

  /** A worker takes the head of the queue and skips it: the snapshot calls it done. */
  lemma PoolSkipStep(st: State, queue: seq<Item>, scripts: seq<UploadScript>, snapshot: seq<Item>, free: nat, delay: int)
    requires |scripts| == |queue| && queue != [] && free > 0
    requires Current(snapshot, queue[0]).status == Done
    ensures Pool(st, queue, scripts, snapshot, free, delay) == Pool(st, queue[1..], scripts[1..], snapshot, free, delay)
  {
    assert Pool(st, queue, scripts, snapshot, free, delay) == Dispatch(st, queue, scripts, snapshot, free, delay);
  }

  /** A worker takes the head of the queue and uploads it; a pending upload keeps the worker. */
  lemma PoolUploadStep(st: State, queue: seq<Item>, scripts: seq<UploadScript>, snapshot: seq<Item>, free: nat, delay: int)
    requires |scripts| == |queue| && queue != [] && free > 0
    requires Current(snapshot, queue[0]).status != Done
    ensures var current := Current(snapshot, queue[0]);
            var pending := UploadFileOutcome(current, scripts[0]) == Pending;
            var rest := Pool(UploadFileEffect(st, current, scripts[0], delay), queue[1..], scripts[1..], snapshot,
                             if pending then free - 1 else free, delay);
            Pool(st, queue, scripts, snapshot, free, delay)
            == PoolRun(rest.state, [current.id] + rest.started, rest.stalled + if pending then 1 else 0)
  {
    assert Pool(st, queue, scripts, snapshot, free, delay) == Dispatch(st, queue, scripts, snapshot, free, delay);
  }

  /** `Math.max(1, concurrencyLimit)` workers. */
  function Workers(limit: int): (n: nat)
    ensures n >= 1 && n >= limit
  {
    Max(1, limit)
  }

  /**
   * No more uploads stall than there are workers; unless every worker
   * stalled, every queued item that is not done in the snapshot is uploaded
   * exactly once, in queue order, failures notwithstanding. The pool never
   * touches the totals or the uploading flag and keeps the timers valid.
   */
  lemma {:induction false} PoolSpec(st: State, queue: seq<Item>, scripts: seq<UploadScript>, snapshot: seq<Item>, free: nat, delay: int)
    requires |scripts| == |queue|
    ensures Pool(st, queue, scripts, snapshot, free, delay).stalled <= free
    ensures |Pool(st, queue, scripts, snapshot, free, delay).started| <= |queue|
    ensures Pool(st, queue, scripts, snapshot, free, delay).stalled < free ==>
              Pool(st, queue, scripts, snapshot, free, delay).started == Eligible(queue, snapshot)
    ensures Pool(st, queue, scripts, snapshot, free, delay).state.totalBytes == st.totalBytes
    ensures Pool(st, queue, scripts, snapshot, free, delay).state.uploading == st.uploading
    ensures Valid(st) ==> Valid(Pool(st, queue, scripts, snapshot, free, delay).state)
    decreases |queue|
  {
    if queue != [] && free != 0 {
      var current := Current(snapshot, queue[0]);
      if current.status == Done {
        PoolSpec(st, queue[1..], scripts[1..], snapshot, free, delay);
      } else {
        var pending := UploadFileOutcome(current, scripts[0]) == Pending;
        var next := UploadFileEffect(st, current, scripts[0], delay);
        UploadFileSummary(st, current, scripts[0], delay);
        PoolSpec(next, queue[1..], scripts[1..], snapshot, if pending then free - 1 else free, delay);
      }
    }
  }

  // ----------------------------------------------------- retry and drop

  /** `retryItem(id)` before re-dispatch: removal cancelled, the file's counters zeroed, the item back to idle. */
  function RetryPrepared(st: State, id: string): State {
    st.(timers := Cancel(st.timers, id), lastBytes := st.lastBytes[id := 0], fileLoaded := st.fileLoaded[id := 0],
        items := UpdateItem(st.items, id, IdlePatch))
  }

  /** `retryItem(id)`: nothing for an unknown id, otherwise prepare and upload the item found; a failure is swallowed. */
  function RetryEffect(st: State, id: string, s: UploadScript, delay: int): State {
    match FindById(st.items, id)
    case None => st
    case Some(it) => UploadFileEffect(RetryPrepared(st, id), it, s, delay)
  }

  /**
   * Retrying an unknown id changes nothing. Otherwise, before re-dispatch, no
   * removal is pending for the item, its last recorded count is zero, and
   * every entry with the id is idle with no error, no progress and no bytes.
   */
  lemma RetrySpec(st: State, id: string, s: UploadScript, delay: int)
    requires Valid(st)
    ensures FindById(st.items, id).None? <==> !HasId(st.items, id)
    ensures !HasId(st.items, id) ==> RetryEffect(st, id, s, delay) == st
    ensures FindById(st.items, id).Some? ==>
              RetryEffect(st, id, s, delay) == UploadFileEffect(RetryPrepared(st, id), FindById(st.items, id).value, s, delay)
    ensures var p := RetryPrepared(st, id);
            && Valid(p)
            && id !in p.timers.removeTimeouts
            && LastBytes(p, id) == 0
            && forall i :: 0 <= i < |p.items| && p.items[i].id == id ==>
                 p.items[i].status == Idle && p.items[i].error == None && p.items[i].progress == 0 && p.items[i].bytesLoaded == 0
    ensures Valid(RetryEffect(st, id, s, delay))
  {
    FindByIdSpec(st.items, id);
    CancelSpec(st.timers, id);
    UpdateItemFrame(st.items, id, IdlePatch);
    if FindById(st.items, id).Some? {
      UploadFileSummary(RetryPrepared(st, id), FindById(st.items, id).value, s, delay);
    }
  }

  /** A file handed to `onDrop`, reduced to its name and size. */
  datatype DroppedFile = DroppedFile(name: string, size: nat)

  /** The placeholder items: idle, no progress, no error, no bytes loaded, one per file with the given id. */
  function Placeholders(files: seq<DroppedFile>, ids: seq<string>): (r: seq<Item>)
    requires |ids| == |files|
    ensures |r| == |files|
    ensures forall i :: 0 <= i < |r| ==>
              r[i] == Item(ids[i], files[i].name, files[i].size, 0, Idle, None, None, None, 0)
  {
    seq(|files|, i requires 0 <= i < |files| => Item(ids[i], files[i].name, files[i].size, 0, Idle, None, None, None, 0))
  }

  /** `acceptedFiles.reduce((s, f) => s + f.size, 0)`. */
  function TotalSize(files: seq<DroppedFile>): nat
    decreases |files|
  {
    if files == [] then 0 else TotalSize(files[..|files| - 1]) + files[|files| - 1].size
  }

  /** The percent `onDrop` shows at once: round(uploaded / total * 100) when both are positive, else 0; not clamped. */
  function DropPercent(uploaded: nat, total: nat): nat {
    if uploaded > 0 && total > 0 then RoundRatio(100 * uploaded, total) else 0
  }

  /** The state once the placeholders are pushed and the totals updated. */
  function Dropped(st: State, files: seq<DroppedFile>, ids: seq<string>): State
    requires |ids| == |files|
  {
    var total := st.totalBytes + TotalSize(files);
    st.(items := st.items + Placeholders(files, ids), uploading := true, totalBytes := total,
        percent := Some(DropPercent(st.uploadedBytes, total)))
  }

  /** After the pool settles: percent 100 and the timer that clears the uploading flag. */
  function Finished(st: State): State {
    st.(percent := Some(100), timers := Start(st.timers, StopUploading(StopUploadingAfterMs)))
  }

  /**
   * `onDrop(files)`: nothing for no files; otherwise push the placeholders,
   * add their sizes to the total, run the pool over them with the item list
   * of before the drop as its snapshot, and, when every upload settled, set
   * the percent to 100 and start the 600 ms timer.
   */
  function DropEffect(st: State, files: seq<DroppedFile>, ids: seq<string>, scripts: seq<UploadScript>, concurrency: int, delay: int): State
    requires |ids| == |files| && |scripts| == |files|
  {
    if files == [] then st
    else
      var run := Pool(Dropped(st, files, ids), Placeholders(files, ids), scripts, st.items, Workers(concurrency), delay);
      if run.stalled == 0 then Finished(run.state) else run.state
  }

  /** Placeholders whose ids the list does not hold yet are all eligible: the snapshot cannot call them done. */
  lemma {:induction false} FreshPlaceholdersEligible(files: seq<DroppedFile>, ids: seq<string>, snapshot: seq<Item>)
    requires |ids| == |files|
    requires forall i :: 0 <= i < |ids| ==> !HasId(snapshot, ids[i])
    ensures Eligible(Placeholders(files, ids), snapshot) == ids
    decreases |files|
  {
    if files != [] {
      var q := Placeholders(files, ids);
      FindByIdSpec(snapshot, ids[0]);
      assert q[1..] == Placeholders(files[1..], ids[1..]);
      FreshPlaceholdersEligible(files[1..], ids[1..], snapshot);
    }
  }

  /**
   * A drop of new files adds their total size, pushes them idle behind the
   * existing items, and, when no upload is left awaiting, uploads every one
   * of them exactly once in drop order and ends with percent 100, the
   * uploading flag still set and the timer that clears it pending.
   */
  lemma DropSpec(st: State, files: seq<DroppedFile>, ids: seq<string>, scripts: seq<UploadScript>, concurrency: int, delay: int)
    requires Valid(st)
    requires |ids| == |files| && |scripts| == |files| && files != []
    requires forall i :: 0 <= i < |ids| ==> !HasId(st.items, ids[i])
    ensures var run := Pool(Dropped(st, files, ids), Placeholders(files, ids), scripts, st.items, Workers(concurrency), delay);
            && run.stalled <= Workers(concurrency)
            && (run.stalled == 0 ==> run.started == ids)
            && (run.stalled == 0 ==>
                  var r := DropEffect(st, files, ids, scripts, concurrency, delay);
                  r.percent == Some(100) && r.uploading
                  && r.timers.pending[run.state.timers.next] == StopUploading(600))
    ensures DropEffect(st, files, ids, scripts, concurrency, delay).totalBytes == st.totalBytes + TotalSize(files)
    ensures Valid(DropEffect(st, files, ids, scripts, concurrency, delay))
  {
    var d := Dropped(st, files, ids);
    PoolSpec(d, Placeholders(files, ids), scripts, st.items, Workers(concurrency), delay);
    FreshPlaceholdersEligible(files, ids, st.items);
    var run := Pool(d, Placeholders(files, ids), scripts, st.items, Workers(concurrency), delay);
    StartSpec(run.state.timers, StopUploadingAfterMs);
  }

  /** Whatever the ids, a drop keeps the timer bookkeeping valid. */
  lemma DropKeepsValid(st: State, files: seq<DroppedFile>, ids: seq<string>, scripts: seq<UploadScript>, concurrency: int, delay: int)
    requires Valid(st)
    requires |ids| == |files| && |scripts| == |files|
    ensures Valid(DropEffect(st, files, ids, scripts, concurrency, delay))
  {
    if files != [] {
      var d := Dropped(st, files, ids);
      PoolSpec(d, Placeholders(files, ids), scripts, st.items, Workers(concurrency), delay);
      var run := Pool(d, Placeholders(files, ids), scripts, st.items, Workers(concurrency), delay);
      StartSpec(run.state.timers, StopUploadingAfterMs);
    }
  }

  /** Dropping nothing changes nothing. */
  lemma DropNothing(st: State, concurrency: int, delay: int)
    ensures DropEffect(st, [], [], [], concurrency, delay) == st
  {
  }
}
