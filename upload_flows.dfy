/**
 * The two upload strategies as functions of what the network answers.
 *
 * Nothing here performs I/O: every awaited call (signed-URL issue, session
 * issue, the OPTIONS preflight, each PUT, the completion notify) is an input
 * saying how that call settled, and the functions give the requests the
 * browser sends, the absolute byte counts its progress callback sees, the
 * net patch applied to the item and the outcome of the upload.
 */
module UploadFlows {
  import opened Common
  import opened Decimal
  import opened UploadChunks
  import opened UploadProgress
  import opened UploadItems

  /** The metadata record the notify endpoint creates, passed through unchanged. */
  type PhotoRecord = nat

  /** How an awaited collaborator call settled. */
  datatype Reply<T> = Resolved(value: T) | Threw(message: string)

  datatype SignedUrlResponse = SignedUrlResponse(signedUrl: Option<string>, objectName: Option<string>, gsPath: Option<string>)

  /** How the whole-file PUT settled. */
  datatype Transfer = Stored | TransferFailed(message: string)

  /** The answers the single signed PUT receives; `progress` are the `loaded` values of its progress events. */
  datatype SingleScript = SingleScript(signed: Reply<SignedUrlResponse>, progress: seq<nat>, put: Transfer, notify: Reply<PhotoRecord>)

  datatype SessionResponse = SessionResponse(uploadUrl: Option<string>, signedPutUrl: Option<string>, objectName: Option<string>, gsPath: Option<string>)

  datatype PreflightResponse = PreflightResponse(ok: bool, allowOrigin: Option<string>)

  /** The error response attached to a failed chunk PUT: its status and its `range` / `Range` headers. */
  datatype HttpResponse = HttpResponse(status: int, rangeLower: Option<string>, rangeUpper: Option<string>)

  datatype ChunkResult = Accepted | Rejected(response: Option<HttpResponse>, message: string)

  /** The answer to one chunk PUT; `progress` are the `loaded` values of its progress events. */
  datatype ChunkReply = ChunkReply(progress: seq<nat>, result: ChunkResult)

  /**
   * The answers the resumable flow receives. The chunk PUTs consume `chunks`
   * one attempt at a time; `fallback` answers the single PUT a fallback runs.
   */
  datatype ResumableScript = ResumableScript(
    session: Reply<SessionResponse>,
    preflight: Reply<PreflightResponse>,
    chunks: seq<ChunkReply>,
    notify: Reply<PhotoRecord>,
    fallback: SingleScript)

  datatype UploadScript = UploadScript(single: SingleScript, resumable: ResumableScript)

  /** What the browser sends (or waits for), in order. */
  datatype Request =
    | SignedUrlRequest(filename: string)
    | PutFile(url: string)
    | SessionRequest(filename: string)
    | Preflight(url: string)
    | PutChunk(url: string, contentRange: string)
    | Sleep(ms: nat)
    | NotifyUpload(filename: string, objectName: Option<string>, gsPath: Option<string>, size: nat)

  /** How an upload ends: the created record, a thrown error, or still awaiting a reply. */
  datatype Outcome = Completed(photo: PhotoRecord) | Failed(message: string) | Pending

  /** JavaScript truthiness of an optional string. */
  predicate Truthy(s: Option<string>) { s.Some? && s.value != "" }

  const SignedUrlMissing: string := "signed url missing"

  // ---------------------------------------------------------------- patches

  /** Both uploaders start with `{status: uploading, error: null, progress: 0, bytesLoaded: 0}`. */
  const StartPatch := Patch(Some(Uploading), Some(None), Some(0), None, None, Some(0))

  /** `uploadFile` first marks the item `{status: uploading, error: null}`. */
  const UploadingPatch := Patch(Some(Uploading), Some(None), None, None, None, None)

  /** `retryItem` resets the item to `{status: idle, error: null, progress: 0, bytesLoaded: 0}`. */
  const IdlePatch := Patch(Some(Idle), Some(None), Some(0), None, None, Some(0))

  function ProgressPatch(current: nat, total: nat): Patch {
    Patch(None, None, Some(ItemPercent(current, total)), None, None, Some(current))
  }

  /** The net patch of a stream of progress callbacks: the last one wins. */
  function ReportsPatch(reports: seq<nat>, total: nat): Patch {
    if reports == [] then EmptyPatch else ProgressPatch(reports[|reports| - 1], total)
  }

  function DonePatch(objectName: Option<string>, gsPath: Option<string>, size: nat): Patch {
    Patch(Some(Done), None, Some(100), Some(objectName), Some(gsPath), Some(size))
  }

  function ErrorPatch(message: string): Patch {
    Patch(Some(Errored), Some(Some(message)), None, None, None, None)
  }

  // ------------------------------------------------------------- single PUT

  /** The signed URL, object name and storage path, when all three are present and non-empty. */
  function SignedTarget(s: SingleScript): Option<(string, string, string)> {
    match s.signed
    case Threw(_) => None
    case Resolved(r) =>
      if Truthy(r.signedUrl) && Truthy(r.objectName) && Truthy(r.gsPath)
      then Some((r.signedUrl.value, r.objectName.value, r.gsPath.value)) else None
  }

  function SinglePutRequests(it: Item, s: SingleScript): seq<Request> {
    [SignedUrlRequest(it.name)] +
    match SignedTarget(s)
    case None => []
    case Some((url, objectName, gsPath)) =>
      [PutFile(url)] + (if s.put.Stored? then [NotifyUpload(it.name, Some(objectName), Some(gsPath), it.size)] else [])
  }

  function SinglePutOutcome(s: SingleScript): Outcome {
    match SignedTarget(s)
    case None => Failed(if s.signed.Threw? then s.signed.message else SignedUrlMissing)
    case Some(_) =>
      match s.put
      case TransferFailed(m) => Failed(m)
      case Stored =>
        match s.notify
        case Threw(m) => Failed(m)
        case Resolved(photo) => Completed(photo)
  }

  /** The byte counts the progress callback sees: only once a complete target was issued. */
  function SinglePutReports(s: SingleScript): seq<nat> {
    if SignedTarget(s).Some? then s.progress else []
  }

  function SinglePutPatch(it: Item, s: SingleScript): Patch {
    var afterProgress := Merge(StartPatch, ReportsPatch(SinglePutReports(s), it.size));
    match SinglePutOutcome(s)
    case Completed(_) =>
      var (_, objectName, gsPath) := SignedTarget(s).value;
      Merge(afterProgress, DonePatch(Some(objectName), Some(gsPath), it.size))
    case Failed(m) => Merge(afterProgress, ErrorPatch(m))
    case Pending => afterProgress
  }

  /** A single PUT never stays pending: every await in it is answered by the script. */
  lemma SinglePutSettles(s: SingleScript)
    ensures SinglePutOutcome(s) != Pending
  {
  }

  /**
   * Without all of signed_url, object_name and gs_path the single PUT throws
   * "signed url missing" (or the issuing call's own error) and sends nothing
   * after the signing request.
   */
  lemma SinglePutMissingTarget(it: Item, s: SingleScript)
    requires s.signed.Resolved?
    requires !Truthy(s.signed.value.signedUrl) || !Truthy(s.signed.value.objectName) || !Truthy(s.signed.value.gsPath)
    ensures SinglePutOutcome(s) == Failed("signed url missing")
    ensures SinglePutRequests(it, s) == [SignedUrlRequest(it.name)]
    ensures SinglePutReports(s) == []
  {
  }

  /**
   * A completed single PUT leaves the item done at 100 % with every byte
   * loaded, no error and the issued object name and path; a failed one leaves
   * it in error with the thrown message.
   */
  lemma SinglePutFinalItem(it: Item, s: SingleScript)
    ensures SinglePutOutcome(s).Completed? ==>
              var r := Apply(it, SinglePutPatch(it, s));
              r.status == Done && r.progress == 100 && r.bytesLoaded == it.size && r.error == None
              && r.objectName == Some(SignedTarget(s).value.1) && r.gsPath == Some(SignedTarget(s).value.2)
              && SinglePutRequests(it, s)[|SinglePutRequests(it, s)| - 1]
                 == NotifyUpload(it.name, Some(SignedTarget(s).value.1), Some(SignedTarget(s).value.2), it.size)
    ensures SinglePutOutcome(s).Failed? ==>
              var r := Apply(it, SinglePutPatch(it, s));
              r.status == Errored && r.error == Some(SinglePutOutcome(s).message)
  {
  }

  // ------------------------------------------------------------ chunk loop

  datatype LoopEnd = AllSent | GaveUp | Stalled

  /** What the chunk loop sends, the byte counts its callback sees, and how it ends. */
  datatype ChunkTrace = ChunkTrace(requests: seq<Request>, reports: seq<nat>, end: LoopEnd)

  function Prepend(requests: seq<Request>, reports: seq<nat>, t: ChunkTrace): ChunkTrace {
    ChunkTrace(requests + t.requests, reports + t.reports, t.end)
  }

  /** `headers["range"] || headers["Range"]`, kept only when truthy. */
  function RangeHeader(r: HttpResponse): Option<string> {
    if Truthy(r.rangeLower) then r.rangeLower else if Truthy(r.rangeUpper) then r.rangeUpper else None
  }

  /** The last byte a 308 reply says the server holds, when its Range header matches `bytes=0-(\d+)`. */
  function ServerOffset(result: ChunkResult): Option<nat> {
    match result
    case Accepted => None
    case Rejected(None, _) => None
    case Rejected(Some(r), _) =>
      if r.status != 308 then None
      else match RangeHeader(r)
        case None => None
        case Some(h) => ResumeOffset(h)
  }

  /** The absolute byte counts of one chunk's progress events: `min(total, start + loaded)`. */
  function ChunkReports(start: nat, total: nat, loaded: seq<nat>): (r: seq<nat>)
    ensures |r| == |loaded|
    ensures forall i :: 0 <= i < |r| ==> r[i] <= total
  {
    seq(|loaded|, i requires 0 <= i < |loaded| => Min(total, start + loaded[i]))
  }

  /**
   * The chunk loop from offset `start`, with `attempt` failed attempts
   * already spent on the current chunk: each attempt sends one chunk and
   * consumes one reply; an accepted chunk moves on to the next range, a 308
   * with a usable Range header moves `start` to the server's offset + 1 with
   * no back-off, and any other failure retries after a back-off until the
   * third failure gives up. No reply left means the PUT is still awaited.
   */
  function ChunkRun(url: string, total: nat, start: nat, attempt: nat, replies: seq<ChunkReply>): ChunkTrace
    decreases |replies|
  {
    if start >= total then ChunkTrace([], [], AllSent)
    else if replies == [] then ChunkTrace([], [], Stalled)
    else
      var end := ChunkEnd(start, total);
      var sent := [PutChunk(url, ContentRange(start, end, total))];
      var seen := ChunkReports(start, total, replies[0].progress);
      if replies[0].result.Accepted? then
        Prepend(sent, seen, ChunkRun(url, total, end + 1, 0, replies[1..]))
      else match ServerOffset(replies[0].result)
        case Some(last) => Prepend(sent, seen, ChunkRun(url, total, last + 1, 0, replies[1..]))
        case None =>
          if attempt + 1 >= MaxChunkRetries then ChunkTrace(sent, seen, GaveUp)
          else Prepend(sent + [Sleep(Backoff(attempt + 1))], seen, ChunkRun(url, total, start, attempt + 1, replies[1..]))
  }

  /** One attempt of the loop, when its reply accepts the chunk. */
  lemma ChunkRunAcceptedStep(url: string, total: nat, start: nat, attempt: nat, replies: seq<ChunkReply>)
    requires start < total && replies != [] && replies[0].result.Accepted?
    ensures ChunkRun(url, total, start, attempt, replies)
            == Prepend([PutChunk(url, ContentRange(start, ChunkEnd(start, total), total))],
                       ChunkReports(start, total, replies[0].progress),
                       ChunkRun(url, total, ChunkEnd(start, total) + 1, 0, replies[1..]))
  {
  }

  /** One attempt of the loop, when its reply is a 308 naming the server's offset. */
  lemma ChunkRunResyncStep(url: string, total: nat, start: nat, attempt: nat, replies: seq<ChunkReply>, last: nat)
    requires start < total && replies != [] && !replies[0].result.Accepted?
    requires ServerOffset(replies[0].result) == Some(last)
    ensures ChunkRun(url, total, start, attempt, replies)
            == Prepend([PutChunk(url, ContentRange(start, ChunkEnd(start, total), total))],
                       ChunkReports(start, total, replies[0].progress),
                       ChunkRun(url, total, last + 1, 0, replies[1..]))
  {
  }

  /** One attempt of the loop, when its reply is any other failure and retries remain. */
  lemma ChunkRunRetryStep(url: string, total: nat, start: nat, attempt: nat, replies: seq<ChunkReply>)
    requires start < total && replies != [] && !replies[0].result.Accepted?
    requires ServerOffset(replies[0].result) == None && attempt + 1 < MaxChunkRetries
    ensures ChunkRun(url, total, start, attempt, replies)
            == Prepend([PutChunk(url, ContentRange(start, ChunkEnd(start, total), total)), Sleep(Backoff(attempt + 1))],
                       ChunkReports(start, total, replies[0].progress),
                       ChunkRun(url, total, start, attempt + 1, replies[1..]))
  {
  }

  /** One attempt of the loop, when its reply is the last failure allowed. */
  lemma ChunkRunGiveUpStep(url: string, total: nat, start: nat, attempt: nat, replies: seq<ChunkReply>)
    requires start < total && replies != [] && !replies[0].result.Accepted?
    requires ServerOffset(replies[0].result) == None && attempt + 1 >= MaxChunkRetries
    ensures ChunkRun(url, total, start, attempt, replies)
            == ChunkTrace([PutChunk(url, ContentRange(start, ChunkEnd(start, total), total))],
                          ChunkReports(start, total, replies[0].progress), GaveUp)
  {
  }

  /** The chunk PUTs of a list of ranges of a `total`-byte file. */
  function ChunkPuts(url: string, total: nat, ranges: seq<ByteRange>): seq<Request> {
    seq(|ranges|, i requires 0 <= i < |ranges| => PutChunk(url, ContentRange(ranges[i].first, ranges[i].last, total)))
  }

  predicate AllAccepted(replies: seq<ChunkReply>) {
    forall i :: 0 <= i < |replies| ==> replies[i].result.Accepted?
  }

  lemma AllAcceptedTail(replies: seq<ChunkReply>)
    requires AllAccepted(replies) && replies != []
    ensures AllAccepted(replies[1..])
  {
    forall i | 0 <= i < |replies[1..]| ensures replies[1..][i].result.Accepted? {
      assert replies[1..][i] == replies[i + 1];
    }
  }

  lemma ChunkPutsCons(url: string, total: nat, r: ByteRange, rest: seq<ByteRange>)
    ensures ChunkPuts(url, total, [r] + rest) == [PutChunk(url, ContentRange(r.first, r.last, total))] + ChunkPuts(url, total, rest)
  {
    var lhs := ChunkPuts(url, total, [r] + rest);
    var rhs := [PutChunk(url, ContentRange(r.first, r.last, total))] + ChunkPuts(url, total, rest);
    forall i | 0 <= i < |lhs| ensures lhs[i] == rhs[i] {
      if i > 0 {
        assert ([r] + rest)[i] == rest[i - 1];
      }
    }
  }

  /**
   * When every chunk is accepted at the first attempt, the loop sends exactly
   * one PUT per range of the partition, with header `bytes first-last/total`,
   * in order, and finishes.
   */
  lemma {:induction false} ChunkRunAllAccepted(url: string, total: nat, start: nat, replies: seq<ChunkReply>)
    requires AllAccepted(replies)
    requires |replies| >= |Chunks(start, total)|
    ensures ChunkRun(url, total, start, 0, replies).requests == ChunkPuts(url, total, Chunks(start, total))
    ensures ChunkRun(url, total, start, 0, replies).end == AllSent
    decreases total - start
  {
    if start < total {
      var end := ChunkEnd(start, total);
      assert Chunks(start, total) == [ByteRange(start, end)] + Chunks(end + 1, total);
      AllAcceptedTail(replies);
      ChunkRunAcceptedStep(url, total, start, 0, replies);
      ChunkRunAllAccepted(url, total, end + 1, replies[1..]);
      ChunkPutsCons(url, total, ByteRange(start, end), Chunks(end + 1, total));
    } else {
      assert Chunks(start, total) == [];
    }
  }


  /**
   * With no failure the loop over a whole file sends ceil(total / 3 MiB)
   * chunk PUTs, the last one declaring `bytes ...-(total-1)/total`.
   */
  lemma ChunkRunWholeFile(url: string, total: nat, replies: seq<ChunkReply>)
    requires total > 0
    requires AllAccepted(replies) && |replies| >= CeilDiv(total, ChunkSize)
    ensures |ChunkRun(url, total, 0, 0, replies).requests| == CeilDiv(total, ChunkSize) >= 1
    ensures var rs := ChunkRun(url, total, 0, 0, replies).requests;
            |Chunks(0, total)| == |rs| &&
            rs[|rs| - 1] == PutChunk(url, ContentRange(Chunks(0, total)[|rs| - 1].first, total - 1, total))
  {
    ChunksOfFile(total);
    CeilDivBounds(total, ChunkSize);
    ChunkRunAllAccepted(url, total, 0, replies);
    var c := Chunks(0, total);
    var k := |c| - 1;
    assert ChunkPuts(url, total, c)[k] == PutChunk(url, ContentRange(c[k].first, total - 1, total));
  }

  /**
   * A 308 whose Range header reads `bytes=0-N` resynchronises the next chunk
   * to start at N + 1, with a fresh attempt count and without any back-off.
   */
  lemma ChunkRunResync(url: string, total: nat, start: nat, attempt: nat, replies: seq<ChunkReply>, n: nat)
    requires start < total && replies != []
    requires replies[0].result.Rejected? && replies[0].result.response.Some?
    requires replies[0].result.response.value.status == 308
    requires RangeHeader(replies[0].result.response.value) == Some(ResumePrefix + NatToString(n))
    ensures ChunkRun(url, total, start, attempt, replies)
            == Prepend([PutChunk(url, ContentRange(start, ChunkEnd(start, total), total))],
                       ChunkReports(start, total, replies[0].progress),
                       ChunkRun(url, total, n + 1, 0, replies[1..]))
  {
    ResumeOffsetRoundTrip(n);
  }

  /** A 308 without a usable Range header counts as an ordinary failed attempt. */
  lemma ChunkRunBare308(url: string, total: nat, start: nat, attempt: nat, replies: seq<ChunkReply>, message: string)
    requires replies != []
    requires replies[0].result.Rejected? && replies[0].result.response.Some?
    requires replies[0].result.response.value.status == 308
    requires RangeHeader(replies[0].result.response.value) == None
    ensures ChunkRun(url, total, start, attempt, replies)
            == ChunkRun(url, total, start, attempt, [replies[0].(result := Rejected(None, message))] + replies[1..])
  {
    var other := [replies[0].(result := Rejected(None, message))] + replies[1..];
    assert other[1..] == replies[1..];
  }

  predicate PlainFailure(r: ChunkReply) {
    r.result.Rejected? && ServerOffset(r.result) == None
  }

  /**
   * Three failures in a row on one chunk: three PUTs of the same range with
   * sleeps of 500 and 1000 ms between them, no sleep after the third, and
   * the loop gives up.
   */
  lemma ChunkRunGivesUp(url: string, total: nat, start: nat, replies: seq<ChunkReply>)
    requires start < total && |replies| >= 3
    requires PlainFailure(replies[0]) && PlainFailure(replies[1]) && PlainFailure(replies[2])
    ensures var put := PutChunk(url, ContentRange(start, ChunkEnd(start, total), total));
            ChunkRun(url, total, start, 0, replies).requests == [put, Sleep(500), put, Sleep(1000), put]
    ensures ChunkRun(url, total, start, 0, replies).end == GaveUp
  {
    var put := PutChunk(url, ContentRange(start, ChunkEnd(start, total), total));
    var r1, r2 := replies[1..], replies[2..];
    assert r1[0] == replies[1] && r1[1..] == r2 && r2[0] == replies[2];
    BackoffSchedule();
    assert ChunkRun(url, total, start, 2, r2).requests == [put];
    assert ChunkRun(url, total, start, 1, r1).requests == [put, Sleep(1000), put];
  }

  /** Every sleep the loop takes is 500 or 1000 ms: there are at most two back-offs per chunk. */
  lemma {:induction false} ChunkRunSleeps(url: string, total: nat, start: nat, attempt: nat, replies: seq<ChunkReply>)
    requires attempt < MaxChunkRetries
    ensures forall r :: r in ChunkRun(url, total, start, attempt, replies).requests && r.Sleep? ==>
              r.ms == 500 || r.ms == 1000
    decreases |replies|
  {
    if start < total && replies != [] {
      if replies[0].result.Accepted? {
        ChunkRunAcceptedStep(url, total, start, attempt, replies);
        ChunkRunSleeps(url, total, ChunkEnd(start, total) + 1, 0, replies[1..]);
      } else if ServerOffset(replies[0].result).Some? {
        var last := ServerOffset(replies[0].result).value;
        ChunkRunResyncStep(url, total, start, attempt, replies, last);
        ChunkRunSleeps(url, total, last + 1, 0, replies[1..]);
      } else if attempt + 1 < MaxChunkRetries {
        ChunkRunRetryStep(url, total, start, attempt, replies);
        ChunkRunSleeps(url, total, start, attempt + 1, replies[1..]);
        BackoffSchedule();
      } else {
        ChunkRunGiveUpStep(url, total, start, attempt, replies);
      }
    }
  }


  /** A chunk PUT to `url` declaring a range that starts inside the file and ends at ChunkEnd. */
  predicate WellFormedPut(url: string, total: nat, r: Request) {
    r.PutChunk? ==> r.url == url && exists a :: 0 <= a < total && r.contentRange == ContentRange(a, ChunkEnd(a, total), total)
  }

  /** Each chunk PUT the loop sends declares a well-formed range. */
  lemma {:induction false} ChunkRunHeaders(url: string, total: nat, start: nat, attempt: nat, replies: seq<ChunkReply>)
    ensures forall r :: r in ChunkRun(url, total, start, attempt, replies).requests ==> WellFormedPut(url, total, r)
    decreases |replies|
  {
    if start < total && replies != [] {
      var put := PutChunk(url, ContentRange(start, ChunkEnd(start, total), total));
      assert WellFormedPut(url, total, put);
      if replies[0].result.Accepted? {
        ChunkRunAcceptedStep(url, total, start, attempt, replies);
        ChunkRunHeaders(url, total, ChunkEnd(start, total) + 1, 0, replies[1..]);
      } else if ServerOffset(replies[0].result).Some? {
        var last := ServerOffset(replies[0].result).value;
        ChunkRunResyncStep(url, total, start, attempt, replies, last);
        ChunkRunHeaders(url, total, last + 1, 0, replies[1..]);
      } else if attempt + 1 < MaxChunkRetries {
        ChunkRunRetryStep(url, total, start, attempt, replies);
        ChunkRunHeaders(url, total, start, attempt + 1, replies[1..]);
      } else {
        ChunkRunGiveUpStep(url, total, start, attempt, replies);
      }
    }
  }

  /** Every progress count the loop reports is at most the file size. */
  lemma {:induction false} ChunkRunReportsBounded(url: string, total: nat, start: nat, attempt: nat, replies: seq<ChunkReply>)
    ensures forall b :: b in ChunkRun(url, total, start, attempt, replies).reports ==> b <= total
    decreases |replies|
  {
    if start < total && replies != [] {
      var seen := ChunkReports(start, total, replies[0].progress);
      assert forall b :: b in seen ==> b <= total;
      if replies[0].result.Accepted? {
        ChunkRunAcceptedStep(url, total, start, attempt, replies);
        ChunkRunReportsBounded(url, total, ChunkEnd(start, total) + 1, 0, replies[1..]);
      } else if ServerOffset(replies[0].result).Some? {
        var last := ServerOffset(replies[0].result).value;
        ChunkRunResyncStep(url, total, start, attempt, replies, last);
        ChunkRunReportsBounded(url, total, last + 1, 0, replies[1..]);
      } else if attempt + 1 < MaxChunkRetries {
        ChunkRunRetryStep(url, total, start, attempt, replies);
        ChunkRunReportsBounded(url, total, start, attempt + 1, replies[1..]);
      } else {
        ChunkRunGiveUpStep(url, total, start, attempt, replies);
      }
    }
  }

  // -------------------------------------------------------- resumable flow

  /** The session URL, when a session was issued with a truthy `upload_url`. */
  function SessionUrl(s: ResumableScript): Option<string> {
    match s.session
    case Threw(_) => None
    case Resolved(meta) => if Truthy(meta.uploadUrl) then meta.uploadUrl else None
  }

  /** The preflight succeeded and carried an `access-control-allow-origin` header. */
  predicate PreflightPasses(s: ResumableScript) {
    s.preflight.Resolved? && s.preflight.value.ok && Truthy(s.preflight.value.allowOrigin)
  }

  /** The chunk loop runs only after a session URL and a passing preflight. */
  predicate ChunksStart(s: ResumableScript) {
    SessionUrl(s).Some? && PreflightPasses(s)
  }

  function ResumableTrace(it: Item, s: ResumableScript): ChunkTrace
    requires ChunksStart(s)
  {
    ChunkRun(SessionUrl(s).value, it.size, 0, 0, s.chunks)
  }

  /** The resumable attempt is abandoned for a single PUT of the whole file. */
  predicate FallsBack(it: Item, s: ResumableScript) {
    !ChunksStart(s) || ResumableTrace(it, s).end == GaveUp
  }

  function ResumableNotify(it: Item, s: ResumableScript): Request
    requires s.session.Resolved?
  {
    NotifyUpload(it.name, s.session.value.objectName, s.session.value.gsPath, it.size)
  }

  /** The requests before the chunk loop: the session request and, given a session URL, the preflight. */
  function GateRequests(it: Item, s: ResumableScript): seq<Request> {
    [SessionRequest(it.name)] + (if SessionUrl(s).Some? then [Preflight(SessionUrl(s).value)] else [])
  }

  /** The chunk PUTs and back-off sleeps, when the loop runs. */
  function LoopRequests(it: Item, s: ResumableScript): seq<Request> {
    if ChunksStart(s) then ResumableTrace(it, s).requests else []
  }

  /** What follows the loop: the fallback's single PUT, the resumable notify, or nothing while a PUT is awaited. */
  function TailRequests(it: Item, s: ResumableScript): seq<Request> {
    if FallsBack(it, s) then SinglePutRequests(it, s.fallback)
    else if ResumableTrace(it, s).end == AllSent then [ResumableNotify(it, s)]
    else []
  }

  function ResumableRequests(it: Item, s: ResumableScript): seq<Request> {
    GateRequests(it, s) + LoopRequests(it, s) + TailRequests(it, s)
  }

  function ResumableOutcome(it: Item, s: ResumableScript): Outcome {
    if FallsBack(it, s) then SinglePutOutcome(s.fallback)
    else match ResumableTrace(it, s).end
      case Stalled => Pending
      case _ =>
        match s.notify
        case Threw(m) => Failed(m)
        case Resolved(photo) => Completed(photo)
  }

  /** The byte counts of the chunk loop's progress callbacks. */
  function LoopReports(it: Item, s: ResumableScript): seq<nat> {
    if ChunksStart(s) then ResumableTrace(it, s).reports else []
  }

  /** The byte counts of a fallback single PUT's progress callbacks. */
  function FallbackReports(it: Item, s: ResumableScript): seq<nat> {
    if FallsBack(it, s) then SinglePutReports(s.fallback) else []
  }

  function ResumablePatch(it: Item, s: ResumableScript): Patch {
    var afterLoop := Merge(StartPatch, ReportsPatch(LoopReports(it, s), it.size));
    if FallsBack(it, s) then Merge(afterLoop, SinglePutPatch(it, s.fallback))
    else match ResumableOutcome(it, s)
      case Completed(_) => Merge(afterLoop, DonePatch(s.session.value.objectName, s.session.value.gsPath, it.size))
      case Failed(m) => Merge(afterLoop, ErrorPatch(m))
      case Pending => afterLoop
  }

  function CountSignedRequests(rs: seq<Request>): nat
    decreases |rs|
  {
    if rs == [] then 0 else (if rs[0].SignedUrlRequest? then 1 else 0) + CountSignedRequests(rs[1..])
  }

  lemma {:induction false} CountSignedAppend(a: seq<Request>, b: seq<Request>)
    ensures CountSignedRequests(a + b) == CountSignedRequests(a) + CountSignedRequests(b)
    decreases |a|
  {
    if a == [] {
      assert a + b == b;
    } else {
      assert (a + b)[1..] == a[1..] + b;
      CountSignedAppend(a[1..], b);
    }
  }

  /** The chunk loop sends only chunk PUTs and sleeps. */
  lemma {:induction false} ChunkRunOnlyChunks(url: string, total: nat, start: nat, attempt: nat, replies: seq<ChunkReply>)
    ensures forall r :: r in ChunkRun(url, total, start, attempt, replies).requests ==> r.PutChunk? || r.Sleep?
    decreases |replies|
  {
    if start < total && replies != [] {
      if replies[0].result.Accepted? {
        ChunkRunAcceptedStep(url, total, start, attempt, replies);
        ChunkRunOnlyChunks(url, total, ChunkEnd(start, total) + 1, 0, replies[1..]);
      } else if ServerOffset(replies[0].result).Some? {
        var last := ServerOffset(replies[0].result).value;
        ChunkRunResyncStep(url, total, start, attempt, replies, last);
        ChunkRunOnlyChunks(url, total, last + 1, 0, replies[1..]);
      } else if attempt + 1 < MaxChunkRetries {
        ChunkRunRetryStep(url, total, start, attempt, replies);
        ChunkRunOnlyChunks(url, total, start, attempt + 1, replies[1..]);
      } else {
        ChunkRunGiveUpStep(url, total, start, attempt, replies);
      }
    }
  }


  /**
   * Every fallback path (session request thrown, no upload_url, preflight
   * thrown, non-ok or without the allow-origin header, a chunk out of
   * attempts) runs the single PUT exactly once for the whole item: what
   * follows the resumable requests is precisely a single-PUT request
   * sequence, no resumable notify is sent, the outcome is the single PUT's,
   * and only the single PUT requests a signed URL. Without a fallback no
   * signed URL is requested at all.
   */
  lemma ResumableFallback(it: Item, s: ResumableScript)
    ensures FallsBack(it, s) ==>
              ResumableRequests(it, s) == (GateRequests(it, s) + LoopRequests(it, s)) + SinglePutRequests(it, s.fallback)
    ensures forall r :: r in GateRequests(it, s) + LoopRequests(it, s) ==> !r.SignedUrlRequest? && !r.NotifyUpload?
    ensures FallsBack(it, s) ==> ResumableOutcome(it, s) == SinglePutOutcome(s.fallback)
    ensures CountSignedRequests(ResumableRequests(it, s)) == if FallsBack(it, s) then 1 else 0
  {
    PrefixOnlyChunks(it, s);
    var before := GateRequests(it, s) + LoopRequests(it, s);
    NoSignedHere(before);
    CountSignedAppend(before, TailRequests(it, s));
    if FallsBack(it, s) {
      SinglePutSignsOnce(it, s.fallback);
    } else if ResumableTrace(it, s).end == AllSent {
      NoSignedHere(TailRequests(it, s));
    }
  }

  /** Before any fallback only the session request, the preflight, chunk PUTs and sleeps are sent. */
  lemma PrefixOnlyChunks(it: Item, s: ResumableScript)
    ensures forall r :: r in GateRequests(it, s) + LoopRequests(it, s) ==>
              r.SessionRequest? || r.Preflight? || r.PutChunk? || r.Sleep?
  {
    if ChunksStart(s) {
      ChunkRunOnlyChunks(SessionUrl(s).value, it.size, 0, 0, s.chunks);
    }
  }

  /** A single PUT requests exactly one signed URL. */
  lemma SinglePutSignsOnce(it: Item, s: SingleScript)
    ensures CountSignedRequests(SinglePutRequests(it, s)) == 1
  {
    var rs := SinglePutRequests(it, s);
    assert rs == [SignedUrlRequest(it.name)] + rs[1..];
    CountSignedAppend([SignedUrlRequest(it.name)], rs[1..]);
    NoSignedHere(rs[1..]);
  }

  lemma {:induction false} NoSignedHere(rs: seq<Request>)
    requires forall r :: r in rs ==> !r.SignedUrlRequest?
    ensures CountSignedRequests(rs) == 0
    decreases |rs|
  {
    if rs != [] {
      assert forall r :: r in rs[1..] ==> r in rs;
      NoSignedHere(rs[1..]);
    }
  }

  /** When the session request throws, no chunk PUT is sent: the item goes straight to a single PUT. */
  lemma SessionFailureFallsBack(it: Item, s: ResumableScript)
    requires s.session.Threw?
    ensures ResumableRequests(it, s) == [SessionRequest(it.name)] + SinglePutRequests(it, s.fallback)
    ensures ResumableOutcome(it, s) == SinglePutOutcome(s.fallback)
  {
  }

  /**
   * A chunk that runs out of attempts after a fallback whose single PUT
   * completes still ends with the whole file loaded: the item is done at 100 %
   * with bytesLoaded equal to the full size.
   */
  lemma FallbackLoadsWholeFile(it: Item, s: ResumableScript)
    requires FallsBack(it, s) && SinglePutOutcome(s.fallback).Completed?
    ensures Apply(it, ResumablePatch(it, s)).status == Done
    ensures Apply(it, ResumablePatch(it, s)).bytesLoaded == it.size
    ensures Apply(it, ResumablePatch(it, s)).progress == 100
  {
  }

  /** A resumable upload that completes without fallback leaves the item done with every byte loaded. */
  lemma ResumableFinalItem(it: Item, s: ResumableScript)
    ensures ResumableOutcome(it, s).Completed? ==>
              var r := Apply(it, ResumablePatch(it, s));
              r.status == Done && r.progress == 100 && r.bytesLoaded == it.size && r.error == None
    ensures ResumableOutcome(it, s).Failed? ==>
              Apply(it, ResumablePatch(it, s)).status == Errored
              && Apply(it, ResumablePatch(it, s)).error == Some(ResumableOutcome(it, s).message)
  {
  }

  // --------------------------------------- preflight fallback, as written

  /** A session URL was issued and the preflight settled, but non-ok or without the allow-origin header. */
  predicate PreflightRejected(s: ResumableScript) {
    SessionUrl(s).Some? && s.preflight.Resolved? && !PreflightPasses(s)
  }

  /**
   * The requests as the code is written: on a rejected preflight the
   * fallback runs inside the `try` around the preflight, so when that
   * single PUT throws, the `catch` runs a second single PUT, answered by
   * `again`.
   */
  function ResumableRequestsAsWritten(it: Item, s: ResumableScript, again: SingleScript): seq<Request> {
    if PreflightRejected(s) && SinglePutOutcome(s.fallback).Failed?
    then ResumableRequests(it, s) + SinglePutRequests(it, again)
    else ResumableRequests(it, s)
  }

  /** A rejected preflight whose fallback throws requests two signed URLs as written. */
  lemma PreflightFallbackRunsTwiceAsWritten(it: Item, s: ResumableScript, again: SingleScript)
    requires PreflightRejected(s) && s.fallback.signed.Threw?
    ensures CountSignedRequests(ResumableRequestsAsWritten(it, s, again)) == 2
    ensures CountSignedRequests(ResumableRequests(it, s)) == 1
  {
    ResumableFallback(it, s);
    SinglePutSignsOnce(it, again);
    CountSignedAppend(ResumableRequests(it, s), SinglePutRequests(it, again));
  }

  /**
   * The outcome as the code is written: on a rejected preflight whose
   * fallback throws, the second single PUT decides it, and its exception,
   * if any, leaves the resumable flow.
   */
  function ResumableOutcomeAsWritten(it: Item, s: ResumableScript, again: SingleScript): Outcome {
    if PreflightRejected(s) && SinglePutOutcome(s.fallback).Failed?
    then SinglePutOutcome(again)
    else ResumableOutcome(it, s)
  }

  /** The item's net patch as the code is written: the second single PUT's patch follows the first's. */
  function ResumablePatchAsWritten(it: Item, s: ResumableScript, again: SingleScript): Patch {
    if PreflightRejected(s) && SinglePutOutcome(s.fallback).Failed?
    then Merge(ResumablePatch(it, s), SinglePutPatch(it, again))
    else ResumablePatch(it, s)
  }

  /**
   * A rejected preflight whose fallback cannot get a signed URL: as written
   * the second single PUT decides the upload, so when it succeeds the item
   * ends done and the record is delivered, where a single fallback leaves
   * the item in error with the first PUT's message. Two signed URLs are
   * requested instead of one.
   */
  lemma PreflightSecondPutDecidesAsWritten(it: Item, s: ResumableScript, again: SingleScript)
    requires PreflightRejected(s) && s.fallback.signed.Threw?
    ensures ResumableOutcome(it, s) == Failed(s.fallback.signed.message)
    ensures Apply(it, ResumablePatch(it, s)).status == Errored
    ensures ResumableOutcomeAsWritten(it, s, again) == SinglePutOutcome(again)
    ensures SinglePutOutcome(again).Completed? ==>
              ResumableOutcomeAsWritten(it, s, again) == Completed(SinglePutOutcome(again).photo)
              && Apply(it, ResumablePatchAsWritten(it, s, again)).status == Done
              && Apply(it, ResumablePatchAsWritten(it, s, again)).bytesLoaded == it.size
    ensures CountSignedRequests(ResumableRequestsAsWritten(it, s, again)) == 2
  {
    assert FallsBack(it, s);
    ResumableFinalItem(it, s);
    PreflightFallbackRunsTwiceAsWritten(it, s, again);
  }

  // ------------------------------------------------------------- strategy

  function UploadFileRequests(it: Item, s: UploadScript): seq<Request> {
    if ChooseStrategy(it.size) == Resumable then ResumableRequests(it, s.resumable)
    else SinglePutRequests(it, s.single)
  }

  function UploadFileOutcome(it: Item, s: UploadScript): Outcome {
    if ChooseStrategy(it.size) == Resumable then ResumableOutcome(it, s.resumable)
    else SinglePutOutcome(s.single)
  }

  function UploadFilePatch(it: Item, s: UploadScript): Patch {
    Merge(UploadingPatch,
          if ChooseStrategy(it.size) == Resumable then ResumablePatch(it, s.resumable) else SinglePutPatch(it, s.single))
  }

  /** Files of 10 MiB or more open with a session request; smaller ones with a signed-URL request. */
  lemma UploadFileStrategy(it: Item, s: UploadScript)
    ensures UploadFileRequests(it, s) != []
    ensures UploadFileRequests(it, s)[0] == SessionRequest(it.name) <==> it.size >= 10 * 1024 * 1024
    ensures UploadFileRequests(it, s)[0] == SignedUrlRequest(it.name) <==> it.size < 10 * 1024 * 1024
  {
  }
}
