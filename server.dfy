/** The client-streaming upload handler (api/grpc/server/server.go). The
    transport is replaced by what it delivers: the outcome of the first Recv,
    then one Step per loop iteration (the context's state, the outcome of
    Recv, and whether the disk accepts the write of that chunk). */
module Server {
  import opened Wrappers
  import opened Repo
  import opened Service

  /** A FileUploadRequest: the file info or a chunk of data. */
  datatype Request = FileInfo(fileName: string, fileType: string) | ChunkData(chunk: seq<byte>)

  /** req.GetInfo().GetFileType(): "" when the message carries no info. */
  function FileTypeOf(req: Request): string
  {
    if req.FileInfo? then req.fileType else ""
  }

  /** req.GetChunk(): empty when the message carries no chunk. */
  function ChunkOf(req: Request): seq<byte>
  {
    if req.ChunkData? then req.chunk else []
  }

  /** What one Recv returns. */
  datatype Received = Message(req: Request) | EndOfStream | RecvFailed

  /** ctx.Err() of the stream's context. */
  datatype ContextState = Active | ContextCanceled | ContextDeadlineExceeded

  /** One iteration's view of the outside world. */
  datatype Step = Step(ctx: ContextState, recv: Received, diskOk: bool)

  /** The gRPC status codes the handler returns. */
  datatype Code = Canceled | DeadlineExceeded | Unknown | Internal | InvalidArgument

  datatype Status = OK | Failed(code: Code)

  /** FileUploadResponse; `size` is a uint32. */
  datatype Response = Response(id: string, size: nat)

  const Uint32Range: nat := 0x1_0000_0000

  /** Writing a key twice keeps the second value. */
  lemma UpdateAgain(m: map<string, seq<byte>>, k: string, a: seq<byte>, b: seq<byte>)
    ensures m[k := a][k := b] == m[k := b]
  {
  }

  /** A step at which the loop stops whatever came before. */
  predicate Ends(s: Step)
  {
    !s.ctx.Active? || !s.recv.Message?
  }

  /** The stream eventually ends: its last step is one at which the loop stops. */
  predicate EndsStream(steps: seq<Step>)
  {
    |steps| > 0 && Ends(steps[|steps| - 1])
  }

  /** contextError: the status for a canceled or expired context, None otherwise. */
  function ContextError(ctx: ContextState): Option<Code>
  {
    match ctx
    case ContextCanceled => Some(Canceled)
    case ContextDeadlineExceeded => Some(DeadlineExceeded)
    case Active => None
  }

  /** How the receive loop ended: at EOF, or by returning an error. */
  datatype Exit = Completed | Aborted(code: Code)

  /** The loop's outcome: how it ended, every chunk handed to SaveChunk (in
      order; the last one failed when the exit is Internal), and the running
      fileSize at the end. */
  datatype IngestEnd = IngestEnd(exit: Exit, saves: seq<seq<byte>>, size: nat)

  /** The receive loop as a value, starting from a running size of `fileSize`. */
  function Ingest(steps: seq<Step>, fileSize: nat, maxFileSize: nat): IngestEnd
    requires EndsStream(steps)
    decreases |steps|
  {
    var s := steps[0];
    match ContextError(s.ctx)
    case Some(code) => IngestEnd(Aborted(code), [], fileSize)
    case None =>
      match s.recv
      case EndOfStream => IngestEnd(Completed, [], fileSize)
      case RecvFailed => IngestEnd(Aborted(Unknown), [], fileSize)
      case Message(req) =>
        var chunk := ChunkOf(req);
        var total := fileSize + |chunk|;
        if total > maxFileSize then IngestEnd(Aborted(InvalidArgument), [], total)
        else if !s.diskOk then IngestEnd(Aborted(Internal), [chunk], total)
        else
          After([chunk], Ingest(steps[1..], total, maxFileSize))
  }

  /** The outcome `rest` of the remaining stream, preceded by the saves
      `saved` already made. */
  function After(saved: seq<seq<byte>>, rest: IngestEnd): IngestEnd
  {
    IngestEnd(rest.exit, saved + rest.saves, rest.size)
  }

  /** The chunks that reached the file: all saves but a failed last one. */
  function Persisted(e: IngestEnd): seq<seq<byte>>
  {
    if e.exit == Aborted(Internal) && |e.saves| > 0 then e.saves[..|e.saves| - 1] else e.saves
  }

  /** The chunks joined in order. */
  function Concat(chunks: seq<seq<byte>>): seq<byte>
  {
    if chunks == [] then [] else chunks[0] + Concat(chunks[1..])
  }

  /** The sum of the chunk lengths. */
  function TotalLen(chunks: seq<seq<byte>>): nat
  {
    if chunks == [] then 0 else |chunks[0]| + TotalLen(chunks[1..])
  }

  /** The SaveChunk calls for `chunks`, in order. */
  function SaveOps(name: string, chunks: seq<seq<byte>>): seq<Op>
  {
    seq(|chunks|, k requires 0 <= k < |chunks| => SaveOp(name, chunks[k]))
  }

  /** The registry calls of one upload whose Init succeeded: Init, the
      saves, and the deferred Close. */
  function SessionOps(name: string, chunks: seq<seq<byte>>): seq<Op>
  {
    [InitOp(name)] + SaveOps(name, chunks) + [CloseOp(name)]
  }

  /** The history of a session, appended call by call, is its SessionOps. */
  lemma SessionHistory(h: seq<Op>, name: string, chunks: seq<seq<byte>>)
    ensures h + [InitOp(name)] + SaveOps(name, chunks) + [CloseOp(name)] == h + SessionOps(name, chunks)
  {
  }

  lemma {:induction false} ConcatLength(chunks: seq<seq<byte>>)
    ensures |Concat(chunks)| == TotalLen(chunks)
  {
    if chunks != [] {
      ConcatLength(chunks[1..]);
    }
  }

  lemma {:induction false} ConcatAppend(chunks: seq<seq<byte>>, c: seq<byte>)
    ensures Concat(chunks + [c]) == Concat(chunks) + c
    ensures TotalLen(chunks + [c]) == TotalLen(chunks) + |c|
  {
    if chunks == [] {
      assert [c][1..] == [];
    } else {
      assert (chunks + [c])[1..] == chunks[1..] + [c];
      ConcatAppend(chunks[1..], c);
    }
  }

  lemma SaveOpsAppend(name: string, chunks: seq<seq<byte>>, c: seq<byte>)
    ensures SaveOps(name, chunks + [c]) == SaveOps(name, chunks) + [SaveOp(name, c)]
  {
  }

  /** A session opens first, closes last, and closes exactly once. */
  lemma SessionClosesOnce(name: string, chunks: seq<seq<byte>>)
    ensures SessionOps(name, chunks)[0] == InitOp(name)
    ensures var ops := SessionOps(name, chunks);
      forall k :: 0 <= k < |ops| ==> (ops[k].CloseOp? <==> k == |ops| - 1)
  {
  }

  /** Every chunk handed to SaveChunk comes from a message received with a
      live context, in the order received, with nothing skipped. */
  lemma {:induction false} IngestSavesInOrder(steps: seq<Step>, fileSize: nat, maxFileSize: nat)
    requires EndsStream(steps)
    ensures var e := Ingest(steps, fileSize, maxFileSize);
      && |e.saves| <= |steps|
      && forall j :: 0 <= j < |e.saves| ==>
           steps[j].ctx == Active && steps[j].recv.Message? && e.saves[j] == ChunkOf(steps[j].recv.req)
  {
    var s := steps[0];
    if s.ctx == Active && s.recv.Message? && fileSize + |ChunkOf(s.recv.req)| <= maxFileSize && s.diskOk {
      var total := fileSize + |ChunkOf(s.recv.req)|;
      IngestSavesInOrder(steps[1..], total, maxFileSize);
      var e := Ingest(steps, fileSize, maxFileSize);
      var rest := Ingest(steps[1..], total, maxFileSize);
      forall j | 0 <= j < |e.saves|
        ensures steps[j].ctx == Active && steps[j].recv.Message? && e.saves[j] == ChunkOf(steps[j].recv.req)
      {
        if j > 0 {
          assert e.saves[j] == rest.saves[j - 1];
          assert steps[j] == steps[1..][j - 1];
        }
      }
    }
  }

  /** The size check comes before the write: starting within the limit, the
      chunks handed to SaveChunk never add up to more than the limit, and at
      EOF the running size is exactly their total. */
  lemma {:induction false} IngestWithinLimit(steps: seq<Step>, fileSize: nat, maxFileSize: nat)
    requires EndsStream(steps)
    requires fileSize <= maxFileSize
    ensures var e := Ingest(steps, fileSize, maxFileSize);
      && fileSize + TotalLen(e.saves) <= maxFileSize
      && (e.exit == Completed ==> e.size == fileSize + TotalLen(e.saves))
  {
    var s := steps[0];
    if s.ctx == Active && s.recv.Message? && fileSize + |ChunkOf(s.recv.req)| <= maxFileSize {
      var chunk := ChunkOf(s.recv.req);
      if s.diskOk {
        IngestWithinLimit(steps[1..], fileSize + |chunk|, maxFileSize);
        var rest := Ingest(steps[1..], fileSize + |chunk|, maxFileSize);
        assert ([chunk] + rest.saves)[1..] == rest.saves;
      } else {
        assert [chunk][1..] == [];
      }
    }
  }

  /** A prefix of a run of chunks is no longer than the run. */
  lemma {:induction false} TotalLenPrefix(chunks: seq<seq<byte>>, n: nat)
    requires n <= |chunks|
    ensures TotalLen(chunks[..n]) <= TotalLen(chunks)
  {
    if n > 0 {
      assert chunks[..n][1..] == chunks[1..][..n - 1];
      TotalLenPrefix(chunks[1..], n - 1);
    }
  }

  /** The bytes that reach the file never exceed the limit: whatever way the
      upload ends, the persisted chunks are a prefix of those handed to
      SaveChunk, which stay within the limit. */
  lemma PersistedWithinLimit(steps: seq<Step>, maxFileSize: nat)
    requires EndsStream(steps)
    ensures |Concat(Persisted(Ingest(steps, 0, maxFileSize)))| <= maxFileSize
  {
    var e := Ingest(steps, 0, maxFileSize);
    IngestWithinLimit(steps, 0, maxFileSize);
    var n := if e.exit == Aborted(Internal) && |e.saves| > 0 then |e.saves| - 1 else |e.saves|;
    assert Persisted(e) == e.saves[..n];
    TotalLenPrefix(e.saves, n);
    ConcatLength(Persisted(e));
  }

  /** Why the loop stopped, read off the step it stopped at: the step after
      the last save, or the step of the failed save. */
  lemma {:induction false} IngestExitReason(steps: seq<Step>, fileSize: nat, maxFileSize: nat)
    requires EndsStream(steps)
    ensures var e := Ingest(steps, fileSize, maxFileSize);
      var k := if e.exit == Aborted(Internal) then |e.saves| - 1 else |e.saves|;
      && 0 <= k < |steps|
      && (e.exit == Aborted(Canceled) <==> steps[k].ctx == ContextCanceled)
      && (e.exit == Aborted(DeadlineExceeded) <==> steps[k].ctx == ContextDeadlineExceeded)
      && (e.exit == Completed <==> steps[k].ctx == Active && steps[k].recv == EndOfStream)
      && (e.exit == Aborted(Unknown) <==> steps[k].ctx == Active && steps[k].recv == RecvFailed)
      && (e.exit == Aborted(InvalidArgument) ==>
            steps[k].ctx == Active && steps[k].recv.Message? && e.size > maxFileSize)
      && (e.exit == Aborted(Internal) ==>
            steps[k].ctx == Active && steps[k].recv.Message? && !steps[k].diskOk)
  {
    var s := steps[0];
    if s.ctx == Active && s.recv.Message? && fileSize + |ChunkOf(s.recv.req)| <= maxFileSize && s.diskOk {
      var total := fileSize + |ChunkOf(s.recv.req)|;
      IngestExitReason(steps[1..], total, maxFileSize);
      var rest := Ingest(steps[1..], total, maxFileSize);
      var k := if rest.exit == Aborted(Internal) then |rest.saves| - 1 else |rest.saves|;
      assert steps[k + 1] == steps[1..][k];
    }
  }

  /** With a limit below 2^32, the uint32 size reported for a completed
      upload is exactly the number of bytes written to the file. */
  lemma ReportedSize(steps: seq<Step>, maxFileSize: nat)
    requires EndsStream(steps) && maxFileSize < Uint32Range
    ensures var e := Ingest(steps, 0, maxFileSize);
      e.exit == Completed ==> e.size % Uint32Range == |Concat(Persisted(e))|
  {
    var e := Ingest(steps, 0, maxFileSize);
    IngestWithinLimit(steps, 0, maxFileSize);
    ConcatLength(e.saves);
  }

  /** A step the loop passes through: live context, a message, a successful write. */
  predicate Clean(s: Step)
  {
    s.ctx == Active && s.recv.Message? && s.diskOk
  }

  /** Every step of a run is clean. */
  predicate AllClean(steps: seq<Step>)
  {
    steps == [] || (Clean(steps[0]) && AllClean(steps[1..]))
  }

  /** The chunks of a clean run of steps, in order. */
  function ChunksOf(steps: seq<Step>): seq<seq<byte>>
    requires AllClean(steps)
  {
    if steps == [] then [] else [ChunkOf(steps[0].recv.req)] + ChunksOf(steps[1..])
  }

  /** Conversely, the loop runs through any run of clean steps whose chunks
      fit within the limit, saving exactly those chunks, and the rest of the
      stream decides the outcome. */
  lemma {:induction false} IngestCleanPrefix(pre: seq<Step>, post: seq<Step>, fileSize: nat, maxFileSize: nat)
    requires EndsStream(post)
    requires AllClean(pre)
    requires fileSize + TotalLen(ChunksOf(pre)) <= maxFileSize
    ensures EndsStream(pre + post)
    ensures Ingest(pre + post, fileSize, maxFileSize) ==
      After(ChunksOf(pre), Ingest(post, fileSize + TotalLen(ChunksOf(pre)), maxFileSize))
    decreases |pre|
  {
    var steps := pre + post;
    assert steps[|steps| - 1] == post[|post| - 1];
    if pre == [] {
      assert steps == post;
      var rest := Ingest(post, fileSize, maxFileSize);
      assert ChunksOf(pre) == [] && TotalLen(ChunksOf(pre)) == 0;
      assert Ingest(steps, fileSize, maxFileSize) == After(ChunksOf(pre), rest);
    } else {
      var chunk := ChunkOf(pre[0].recv.req);
      var tail := ChunksOf(pre[1..]);
      var total := fileSize + |chunk|;
      assert steps[0] == pre[0];
      assert steps[1..] == pre[1..] + post;
      assert ([chunk] + tail)[1..] == tail;
      assert TotalLen(ChunksOf(pre)) == |chunk| + TotalLen(tail);
      IngestCleanPrefix(pre[1..], post, total, maxFileSize);
      IngestCleanStep(steps, fileSize, maxFileSize);
      // steps = [pre[0]] + (pre[1..] + post): the first step, then the induction hypothesis
      var r := Ingest(post, total + TotalLen(tail), maxFileSize);
      assert Ingest(steps, fileSize, maxFileSize) == After([chunk], After(tail, r));
      assert [chunk] + (tail + r.saves) == ChunksOf(pre) + r.saves;
      assert Ingest(steps, fileSize, maxFileSize) == After(ChunksOf(pre), r);
      assert total + TotalLen(tail) == fileSize + TotalLen(ChunksOf(pre));
    }
  }

  /** One clean step within the limit: its chunk is saved and the loop goes on. */
  lemma IngestCleanStep(steps: seq<Step>, fileSize: nat, maxFileSize: nat)
    requires EndsStream(steps) && |steps| > 1 && Clean(steps[0])
    requires fileSize + |ChunkOf(steps[0].recv.req)| <= maxFileSize
    ensures EndsStream(steps[1..])
    ensures var chunk := ChunkOf(steps[0].recv.req);
      Ingest(steps, fileSize, maxFileSize) == After([chunk], Ingest(steps[1..], fileSize + |chunk|, maxFileSize))
  {
    assert steps[|steps| - 1] == steps[1..][|steps| - 2];
  }

  /** Scenario: chunks "hel" and "lo", then EOF. */
  lemma HelloUpload(maxFileSize: nat)
    requires maxFileSize >= 5
    ensures var hel: seq<byte> := [0x68, 0x65, 0x6C];
      var lo: seq<byte> := [0x6C, 0x6F];
      var e := Ingest([Step(Active, Message(ChunkData(hel)), true),
                       Step(Active, Message(ChunkData(lo)), true),
                       Step(Active, EndOfStream, true)], 0, maxFileSize);
      e == IngestEnd(Completed, [hel, lo], 5) && Concat(e.saves) == [0x68, 0x65, 0x6C, 0x6C, 0x6F]
  {
    var hel: seq<byte> := [0x68, 0x65, 0x6C];
    var lo: seq<byte> := [0x6C, 0x6F];
    var steps := [Step(Active, Message(ChunkData(hel)), true),
                  Step(Active, Message(ChunkData(lo)), true),
                  Step(Active, EndOfStream, true)];
    assert steps[1..][1..] == [Step(Active, EndOfStream, true)];
    assert Ingest(steps[1..][1..], 5, maxFileSize) == IngestEnd(Completed, [], 5);
    assert Ingest(steps[1..], 3, maxFileSize) == IngestEnd(Completed, [lo], 5);
    assert Concat([lo]) == lo;
  }

  /** The loop's outcome seen from before step `i`: the chunks `saved` so
      far, followed by what the rest of the stream gives. */
  ghost predicate LoopAt(steps: seq<Step>, i: nat, fileSize: nat, saved: seq<seq<byte>>, maxFileSize: nat, e: IngestEnd)
  {
    && i < |steps| && EndsStream(steps[i..])
    && fileSize == TotalLen(saved) <= maxFileSize
    && e == After(saved, Ingest(steps[i..], fileSize, maxFileSize))
  }

  /** The outcome when step `i` stops the loop. */
  lemma LoopStops(steps: seq<Step>, i: nat, fileSize: nat, saved: seq<seq<byte>>, maxFileSize: nat, e: IngestEnd)
    requires LoopAt(steps, i, fileSize, saved, maxFileSize, e)
    ensures var s := steps[i];
      && (ContextError(s.ctx).Some? ==>
            e == IngestEnd(Aborted(ContextError(s.ctx).value), saved, fileSize) && Persisted(e) == saved)
      && (s.ctx == Active && s.recv == EndOfStream ==>
            e == IngestEnd(Completed, saved, fileSize) && Persisted(e) == saved)
      && (s.ctx == Active && s.recv == RecvFailed ==>
            e == IngestEnd(Aborted(Unknown), saved, fileSize) && Persisted(e) == saved)
      && (s.ctx == Active && s.recv.Message? && fileSize + |ChunkOf(s.recv.req)| > maxFileSize ==>
            e == IngestEnd(Aborted(InvalidArgument), saved, fileSize + |ChunkOf(s.recv.req)|)
            && Persisted(e) == saved)
      && (s.ctx == Active && s.recv.Message? && fileSize + |ChunkOf(s.recv.req)| <= maxFileSize && !s.diskOk ==>
            e == IngestEnd(Aborted(Internal), saved + [ChunkOf(s.recv.req)], fileSize + |ChunkOf(s.recv.req)|)
            && Persisted(e) == saved)
  {
    assert steps[i..][0] == steps[i];
    assert saved + [] == saved;
    if steps[i].recv.Message? {
      assert (saved + [ChunkOf(steps[i].recv.req)])[..|saved|] == saved;
    }
  }

  /** A clean step within the limit moves the loop on by one chunk. */
  lemma LoopContinues(steps: seq<Step>, i: nat, fileSize: nat, saved: seq<seq<byte>>, maxFileSize: nat, e: IngestEnd)
    requires LoopAt(steps, i, fileSize, saved, maxFileSize, e)
    requires Clean(steps[i]) && fileSize + |ChunkOf(steps[i].recv.req)| <= maxFileSize
    ensures var chunk := ChunkOf(steps[i].recv.req);
      LoopAt(steps, i + 1, fileSize + |chunk|, saved + [chunk], maxFileSize, e)
  {
    var chunk := ChunkOf(steps[i].recv.req);
    assert steps[i..][0] == steps[i];
    assert steps[i..][1..] == steps[i + 1..];
    ConcatAppend(saved, chunk);
  }

  /** The handler: one per stream, over one service. */
  class UploadServer {
    const service: UploadService

    constructor (service: UploadService)
      ensures this.service == service
    {
      this.service := service;
    }

    /** FileUpload: `first` is what the first Recv returns, `id` and `openOk`
        are what uuid generation and os.OpenFile give service.Init, `steps`
        is the rest of the stream, and `sendOk` whether SendAndClose
        succeeds. Also returns whether closing the session dispatched JSON
        post-processing. */
    method FileUpload(
      first: Received,
      id: Option<string>,
      openOk: bool,
      steps: seq<Step>,
      sendOk: bool,
      maxFileSize: nat,
      jsonExt: string)
      returns (status: Status, response: Option<Response>, dispatched: bool)
      requires EndsStream(steps)
      requires service.repo.Valid()
      modifies service.repo
      ensures service.repo.Valid() && service.repo.processed == old(service.repo.processed)
      // the first Recv failed (EOF included): nothing else happens
      ensures !first.Message? ==>
        && status == Failed(Unknown) && response == None && !dispatched
        && service.repo.uploads == old(service.repo.uploads)
        && service.repo.open == old(service.repo.open)
        && service.repo.history == old(service.repo.history)
      // no name could be generated: the repository is not called
      ensures first.Message? && id.None? ==>
        && status == Failed(Internal) && response == None && !dispatched
        && service.repo.uploads == old(service.repo.uploads)
        && service.repo.open == old(service.repo.open)
        && service.repo.history == old(service.repo.history)
      // the file could not be created: no chunk is received, nothing is closed
      ensures first.Message? && id.Some? ==>
        var name := StoredName(id.value, FileTypeOf(first.req));
        name !in old(service.repo.open) && !openOk ==>
          && status == Failed(Internal) && response == None && !dispatched
          && service.repo.uploads == old(service.repo.uploads)
          && service.repo.open == old(service.repo.open)
          && service.repo.history == old(service.repo.history) + [InitOp(name)]
      // the session is open: the loop runs, and the session is closed exactly once at the end
      ensures first.Message? && id.Some? ==>
        var name := StoredName(id.value, FileTypeOf(first.req));
        var e := Ingest(steps, 0, maxFileSize);
        name in old(service.repo.open) || openOk ==>
          && service.repo.history == old(service.repo.history) + SessionOps(name, e.saves)
          && service.repo.uploads ==
               old(service.repo.uploads)[name := OnDisk(old(service.repo.uploads), name) + Concat(Persisted(e))]
          && service.repo.open == old(service.repo.open) - {name}
          && dispatched == (Ext(name) == jsonExt)
          && (e.exit == Completed ==>
                response == Some(Response(name, e.size % Uint32Range)) && status == (if sendOk then OK else Failed(Unknown)))
          && (e.exit.Aborted? ==> response == None && status == Failed(e.exit.code))
    {
      var repo := service.repo;
      if !first.Message? {
        return Failed(Unknown), None, false;
      }
      var fileType := FileTypeOf(first.req);
      var name, initErr := service.Init(fileType, id, openOk);
      if initErr.Some? {
        return Failed(Internal), None, false;
      }
      assert name == StoredName(id.value, fileType);
      ghost var h1, u1 := repo.history, repo.uploads;
      assert h1 == old(repo.history) + [InitOp(name)];
      assert u1 == old(repo.uploads)[name := OnDisk(old(repo.uploads), name)];
      // from here on, service.Close(name) is deferred
      status, response, dispatched := Session(name, steps, sendOk, maxFileSize, jsonExt);
      ghost var e := Ingest(steps, 0, maxFileSize);
      assert repo.history == h1 + SaveOps(name, e.saves) + [CloseOp(name)];
      SessionHistory(old(repo.history), name, e.saves);
      assert repo.uploads == u1[name := u1[name] + Concat(Persisted(e))];
    }

    /** The part of FileUpload after the session is open: the receive loop,
        the reply, and the deferred service.Close(name). */
    method Session(name: string, steps: seq<Step>, sendOk: bool, maxFileSize: nat, jsonExt: string)
      returns (status: Status, response: Option<Response>, dispatched: bool)
      requires EndsStream(steps)
      requires service.repo.Valid() && name in service.repo.open
      modifies service.repo
      ensures service.repo.Valid() && service.repo.processed == old(service.repo.processed)
      ensures var e := Ingest(steps, 0, maxFileSize);
        && service.repo.history == old(service.repo.history) + SaveOps(name, e.saves) + [CloseOp(name)]
        && service.repo.uploads ==
             old(service.repo.uploads)[name := old(service.repo.uploads)[name] + Concat(Persisted(e))]
        && service.repo.open == old(service.repo.open) - {name}
        && dispatched == (Ext(name) == jsonExt)
        && (e.exit == Completed ==>
              response == Some(Response(name, e.size % Uint32Range)) && status == (if sendOk then OK else Failed(Unknown)))
        && (e.exit.Aborted? ==> response == None && status == Failed(e.exit.code))
    {
      var failure, fileSize, written, calls := ReceiveChunks(name, steps, maxFileSize);
      ghost var e := Ingest(steps, 0, maxFileSize);
      if failure.None? {
        response := Some(Response(name, fileSize % Uint32Range));
        if !sendOk {
          status := Failed(Unknown);
        } else {
          status := OK;
        }
      } else {
        status, response := Failed(failure.value), None;
      }
      // the deferred service.Close(name)
      dispatched := service.Close(name, jsonExt);
    }

    /** The receive loop of FileUpload, for the open session `name`: check
        the context, receive, add to the running size, reject a chunk that
        would exceed the limit, save it. Returns the error status it stopped
        with (None at EOF) and the running size. */
    method ReceiveChunks(name: string, steps: seq<Step>, maxFileSize: nat)
      returns (failure: Option<Code>, fileSize: nat, ghost written: seq<seq<byte>>, ghost calls: seq<seq<byte>>)
      requires EndsStream(steps)
      requires service.repo.Valid() && name in service.repo.open
      modifies service.repo
      ensures service.repo.Valid()
      ensures service.repo.open == old(service.repo.open) && service.repo.processed == old(service.repo.processed)
      ensures var e := Ingest(steps, 0, maxFileSize);
        && (failure.None? <==> e.exit == Completed)
        && (failure.Some? ==> e.exit == Aborted(failure.value))
        && (failure.None? ==> fileSize == e.size <= maxFileSize)
        && written == Persisted(e) && calls == e.saves
      ensures service.repo.uploads == old(service.repo.uploads)[name := old(service.repo.uploads)[name] + Concat(written)]
      ensures service.repo.history == old(service.repo.history) + SaveOps(name, calls)
    {
      var repo := service.repo;
      ghost var base := repo.uploads[name];
      ghost var e := Ingest(steps, 0, maxFileSize);
      written := [];
      assert base + Concat(written) == base;
      assert repo.uploads == old(repo.uploads)[name := base];
      assert repo.history == old(repo.history) + SaveOps(name, written);
      assert steps[0..] == steps;
      fileSize := 0;
      var i := 0;
      while true
        invariant repo.Valid() && name in repo.open && repo.open == old(repo.open)
        invariant repo.processed == old(repo.processed)
        invariant LoopAt(steps, i, fileSize, written, maxFileSize, e)
        invariant repo.uploads == old(repo.uploads)[name := base + Concat(written)]
        invariant repo.history == old(repo.history) + SaveOps(name, written)
        decreases |steps| - i
      {
        var s := steps[i];
        LoopStops(steps, i, fileSize, written, maxFileSize, e);
        calls := written;
        var ctxErr := ContextError(s.ctx);
        if ctxErr.Some? {
          return ctxErr, fileSize, written, calls;
        }
        if s.recv.EndOfStream? {
          return None, fileSize, written, calls;
        }
        if s.recv.RecvFailed? {
          return Some(Unknown), fileSize, written, calls;
        }
        var chunk := ChunkOf(s.recv.req);
        fileSize := fileSize + |chunk|;
        if fileSize > maxFileSize {
          return Some(InvalidArgument), fileSize, written, calls;
        }
        var saveErr := SaveNext(name, chunk, s.diskOk, old(repo.uploads), old(repo.history), base, written);
        calls := written + [chunk];
        if saveErr.Some? {
          return Some(Internal), fileSize, written, calls;
        }
        LoopContinues(steps, i, fileSize - |chunk|, written, maxFileSize, e);
        written := written + [chunk];
        i := i + 1;
      }
    }

    /** One SaveChunk of the receive loop, seen against the session so far:
        the file held `base` when the loop started (registry state `u0`,
        `h0`) and `written` has been appended to it since. */
    method SaveNext(name: string, chunk: seq<byte>, diskOk: bool,
                    ghost u0: map<string, seq<byte>>, ghost h0: seq<Op>,
                    ghost base: seq<byte>, ghost written: seq<seq<byte>>)
      returns (err: Option<Error>)
      requires service.repo.Valid() && name in service.repo.open
      requires service.repo.uploads == u0[name := base + Concat(written)]
      requires service.repo.history == h0 + SaveOps(name, written)
      modifies service.repo
      ensures service.repo.Valid()
      ensures service.repo.open == old(service.repo.open) && service.repo.processed == old(service.repo.processed)
      ensures service.repo.history == h0 + SaveOps(name, written + [chunk])
      ensures diskOk ==> err.None? && service.repo.uploads == u0[name := base + Concat(written + [chunk])]
      ensures !diskOk ==> err.Some? && service.repo.uploads == u0[name := base + Concat(written)]
    {
      err := service.SaveChunk(name, chunk, diskOk);
      SaveOpsAppend(name, written, chunk);
      ConcatAppend(written, chunk);
      assert base + Concat(written + [chunk]) == (base + Concat(written)) + chunk;
      UpdateAgain(u0, name, base + Concat(written), base + Concat(written + [chunk]));
    }
  }
}
