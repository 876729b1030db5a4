/**
 * `uploadFile` and `uploadBigFilePart`: the outbound stream arrives as
 * blocks of at most 512 KiB; each block is sent as the next
 * `upload.saveBigFilePart` with the same file id and declared part count,
 * the stream paused until the part is acknowledged.
 */
module Upload {
  import opened Wrappers
  import opened JsText
  import opened TelegramTypes
  import opened ResilientCall

  /** The `upload.saveBigFilePart` call for one part. */
  function SavePartRequest(fileId: int, part: nat, totalParts: nat, bytes: Bytes): Request
  {
    Request("upload.saveBigFilePart", SaveBigFilePart(fileId, part, totalParts, bytes))
  }

  /** `Failed to upload ${partIdx} file part`: the part index can be read
      back from the message. */
  function FailedPartMessage(part: nat): (m: string)
    ensures PartInMessage(m) == Some(part)
  {
    DecimalRoundTrip(part);
    var digits := DecimalString(part);
    var m := "Failed to upload " + NumberString(part) + " file part";
    assert m[17..|m| - 10] == digits;
    m
  }

  /** The part index named by a failed-part message: the decimal text
      between `Failed to upload ` and ` file part`, if the message has that
      shape. */
  function PartInMessage(m: string): Option<nat>
  {
    if |m| >= 27 && m[..17] == "Failed to upload " && m[|m| - 10..] == " file part" && AllDigits(m[17..|m| - 10])
    then Some(DecimalValue(m[17..|m| - 10]))
    else None
  }

  /** `uploadBigFilePart(fileId, part, totalParts, bytes)`: one `callApi`
      chain for the part, with the default (empty) options. */
  method UploadBigFilePart(fileId: int, part: nat, totalParts: nat, bytes: Bytes,
                           defaultDc: NumberValue, script: seq<Response<bool>>)
    returns (run: CallRun<bool>)
    ensures run == CallApiSpec(SavePartRequest(fileId, part, totalParts, bytes), NoOptions, defaultDc, script)
  {
    run := CallApi(SavePartRequest(fileId, part, totalParts, bytes), NoOptions, defaultDc, script);
  }

  /** Where an upload stands once the script is used up or the stream stops:
      its promise, the part calls issued and how each went, the `partIdx`
      counter, whether the block stream is paused, a rejection that escaped
      the `'data'` handler unhandled, and the default data centre. */
  datatype UploadRun = UploadRun(
    outcome: Settlement<InputFileBig>,
    requests: seq<Request>,
    calls: seq<CallRun<bool>>,
    partIdx: nat,
    paused: bool,
    unhandled: Option<ApiError>,
    defaultDc: NumberValue)

  /** Puts one acknowledged part's record in front of the rest of an upload. */
  function Resume(requests: seq<Request>, calls: seq<CallRun<bool>>, run: UploadRun): UploadRun
  {
    run.(requests := requests + run.requests, calls := calls + run.calls)
  }

  /** How the call for part k is made when the default data centre is dc. */
  type Send = (Request, nat, NumberValue) -> CallRun<bool>

  /** `uploadBigFilePart` for part k: the `callApi` chain of its request,
      whose attempts `remote[k]` answers. */
  function PartSend(remote: seq<seq<Response<bool>>>): Send
  {
    (request: Request, k: nat, dc: NumberValue) => CallApiSpec(request, NoOptions, dc, ScriptFor(remote, k))
  }

  /** The block handlers of `uploadFile` from block `partIdx` on, as a
      recursion: send the block as part `partIdx`; on a truthy
      acknowledgement count it and resume the stream; on a falsy one reject
      with the part's message; on a rejected call leave the promise
      unsettled with the rejection unhandled; on an unsettled call wait,
      paused. After the last block, resolve with the handle. */
  function UploadFrom(chunks: seq<Bytes>, fileId: int, totalParts: nat, partIdx: nat,
                      defaultDc: NumberValue, send: Send): (r: UploadRun)
    decreases |chunks| - partIdx
    ensures |r.requests| == |r.calls|
    ensures r.partIdx >= partIdx
    ensures r.outcome.Resolved? ==> r.outcome.value == InputFileBig(fileId, totalParts) && !r.paused && r.unhandled.None?
  {
    if partIdx >= |chunks| then
      UploadRun(Resolved(InputFileBig(fileId, totalParts)), [], [], partIdx, false, None, defaultDc)
    else
      var request := SavePartRequest(fileId, partIdx, totalParts, chunks[partIdx]);
      var call := send(request, partIdx, defaultDc);
      match call.outcome
      case Resolved(acknowledged) =>
        if acknowledged then
          Resume([request], [call], UploadFrom(chunks, fileId, totalParts, partIdx + 1, call.defaultDc, send))
        else
          UploadRun(Rejected(PlainError(FailedPartMessage(partIdx))), [request], [call], partIdx, true, None,
                    call.defaultDc)
      case Rejected(e) => UploadRun(Pending, [request], [call], partIdx, true, Some(e), call.defaultDc)
      case Pending => UploadRun(Pending, [request], [call], partIdx, true, None, call.defaultDc)
  }

  lemma ResumeTwice(r1: seq<Request>, c1: seq<CallRun<bool>>, r2: seq<Request>, c2: seq<CallRun<bool>>,
                    run: UploadRun)
    ensures Resume(r1, c1, Resume(r2, c2, run)) == Resume(r1 + r2, c1 + c2, run)
  {
    assert r1 + (r2 + run.requests) == (r1 + r2) + run.requests;
    assert c1 + (c2 + run.calls) == (c1 + c2) + run.calls;
  }

  /** `uploadFile(stream, size)` with `fileId` the caller's `Date.now()`,
      `chunks` the blocks the block stream emits and `remote[k]` the
      responses to the attempts of part k. */
  method UploadFile(chunks: seq<Bytes>, size: nat, fileId: int, defaultDc: NumberValue,
                    remote: seq<seq<Response<bool>>>) returns (run: UploadRun)
    ensures run == UploadFrom(chunks, fileId, TotalParts(size), 0, defaultDc, PartSend(remote))
  {
    var totalParts := TotalParts(size);
    ghost var send := PartSend(remote);
    var partIdx: nat := 0;
    var paused := false;
    var requests: seq<Request>, calls: seq<CallRun<bool>> := [], [];
    var dc := defaultDc;
    while partIdx < |chunks|
      invariant UploadFrom(chunks, fileId, totalParts, 0, defaultDc, send)
             == Resume(requests, calls, UploadFrom(chunks, fileId, totalParts, partIdx, dc, send))
      invariant !paused
      decreases |chunks| - partIdx
    {
      // the 'data' handler for the next block
      paused := true;
      var request := SavePartRequest(fileId, partIdx, totalParts, chunks[partIdx]);
      var call := UploadBigFilePart(fileId, partIdx, totalParts, chunks[partIdx], dc, ScriptFor(remote, partIdx));
      assert call == send(request, partIdx, dc);
      match call.outcome {
        case Resolved(acknowledged) =>
          if !acknowledged {
            assert UploadFrom(chunks, fileId, totalParts, partIdx, dc, send)
                == UploadRun(Rejected(PlainError(FailedPartMessage(partIdx))), [request], [call], partIdx, true, None,
                             call.defaultDc);
            return UploadRun(Rejected(PlainError(FailedPartMessage(partIdx))), requests + [request],
                             calls + [call], partIdx, paused, None, call.defaultDc);
          }
        case Rejected(e) =>
          assert UploadFrom(chunks, fileId, totalParts, partIdx, dc, send)
              == UploadRun(Pending, [request], [call], partIdx, true, Some(e), call.defaultDc);
          return UploadRun(Pending, requests + [request], calls + [call], partIdx, paused, Some(e), call.defaultDc);
        case Pending =>
          assert UploadFrom(chunks, fileId, totalParts, partIdx, dc, send)
              == UploadRun(Pending, [request], [call], partIdx, true, None, call.defaultDc);
          return UploadRun(Pending, requests + [request], calls + [call], partIdx, paused, None, call.defaultDc);
      }
      assert UploadFrom(chunks, fileId, totalParts, partIdx, dc, send)
          == Resume([request], [call], UploadFrom(chunks, fileId, totalParts, partIdx + 1, call.defaultDc, send));
      ResumeTwice(requests, calls, [request], [call],
                  UploadFrom(chunks, fileId, totalParts, partIdx + 1, call.defaultDc, send));
      requests, calls := requests + [request], calls + [call];
      dc := call.defaultDc;
      partIdx := partIdx + 1;
      paused := false;
    }
    // the 'end' handler
    run := UploadRun(Resolved(InputFileBig(fileId, totalParts)), requests, calls, partIdx, paused, None, dc);
  }

  /** Block j of an upload from block k goes as part k + j of the same file
      with the declared part count, one part per block and in order. */
  lemma {:induction false} UploadRequests(chunks: seq<Bytes>, fileId: int, totalParts: nat, k: nat,
                                          defaultDc: NumberValue, send: Send)
    requires k <= |chunks|
    ensures var run := UploadFrom(chunks, fileId, totalParts, k, defaultDc, send);
      && |run.requests| == |run.calls| <= |chunks| - k
      && forall j :: 0 <= j < |run.requests| ==>
           run.requests[j] == SavePartRequest(fileId, k + j, totalParts, chunks[k + j])
    decreases |chunks| - k
  {
    if k < |chunks| {
      var request := SavePartRequest(fileId, k, totalParts, chunks[k]);
      var call := send(request, k, defaultDc);
      if call.outcome == Resolved(true) {
        UploadRequests(chunks, fileId, totalParts, k + 1, call.defaultDc, send);
        var rest := UploadFrom(chunks, fileId, totalParts, k + 1, call.defaultDc, send);
        var run := UploadFrom(chunks, fileId, totalParts, k, defaultDc, send);
        assert run.requests == [request] + rest.requests;
        forall j | 0 < j < |run.requests|
          ensures run.requests[j] == SavePartRequest(fileId, k + j, totalParts, chunks[k + j])
        {
          assert run.requests[j] == rest.requests[j - 1];
          assert k + 1 + (j - 1) == k + j;
        }
      }
    }
  }

  /** Part j is sent from the default data centre the part before it left
      (the caller's for the first). */
  lemma {:induction false} UploadChain(chunks: seq<Bytes>, fileId: int, totalParts: nat, k: nat,
                                       defaultDc: NumberValue, send: Send, j: nat)
    requires j < |UploadFrom(chunks, fileId, totalParts, k, defaultDc, send).calls|
    ensures var run := UploadFrom(chunks, fileId, totalParts, k, defaultDc, send);
      && j < |run.requests|
      && run.calls[j] == send(run.requests[j], k + j, DcBefore(run.calls, j, defaultDc))
    decreases j
  {
    var request := SavePartRequest(fileId, k, totalParts, chunks[k]);
    var call := send(request, k, defaultDc);
    if j > 0 {
      var rest := UploadFrom(chunks, fileId, totalParts, k + 1, call.defaultDc, send);
      var run := UploadFrom(chunks, fileId, totalParts, k, defaultDc, send);
      assert call.outcome == Resolved(true);
      assert run.requests == [request] + rest.requests && run.calls == [call] + rest.calls;
      UploadChain(chunks, fileId, totalParts, k + 1, call.defaultDc, send, j - 1);
      assert run.calls[j] == rest.calls[j - 1] && run.requests[j] == rest.requests[j - 1];
      assert DcBefore(run.calls, j, defaultDc) == DcBefore(rest.calls, j - 1, call.defaultDc);
      assert k + 1 + (j - 1) == k + j;
    }
  }

  /** The upload leaves the default data centre the last part call left
      (the caller's when there was no block). */
  lemma {:induction false} UploadLeavesDc(chunks: seq<Bytes>, fileId: int, totalParts: nat, k: nat,
                                          defaultDc: NumberValue, send: Send)
    ensures var run := UploadFrom(chunks, fileId, totalParts, k, defaultDc, send);
      run.defaultDc == DcBefore(run.calls, |run.calls|, defaultDc)
    decreases |chunks| - k
  {
    if k < |chunks| {
      var call := send(SavePartRequest(fileId, k, totalParts, chunks[k]), k, defaultDc);
      if call.outcome == Resolved(true) {
        UploadLeavesDc(chunks, fileId, totalParts, k + 1, call.defaultDc, send);
        var rest := UploadFrom(chunks, fileId, totalParts, k + 1, call.defaultDc, send);
        var run := UploadFrom(chunks, fileId, totalParts, k, defaultDc, send);
        assert run.calls == [call] + rest.calls;
        assert DcBefore(run.calls, |run.calls|, defaultDc) == DcBefore(rest.calls, |rest.calls|, call.defaultDc);
      }
    }
  }

  /** How far an upload from block k gets: `partIdx` counts the truthy
      acknowledgements of the parts sent, in order, and at most one part
      call beyond them was made; the promise resolves exactly when every
      block was acknowledged. */
  lemma {:induction false} UploadProgress(chunks: seq<Bytes>, fileId: int, totalParts: nat, k: nat,
                                          defaultDc: NumberValue, send: Send)
    requires k <= |chunks|
    ensures var run := UploadFrom(chunks, fileId, totalParts, k, defaultDc, send);
      && k <= run.partIdx <= |chunks|
      && run.partIdx - k <= |run.calls| <= run.partIdx - k + 1
      && (forall j :: 0 <= j < run.partIdx - k ==> run.calls[j].outcome == Resolved(true))
      && (run.outcome.Resolved? <==> run.partIdx == |chunks|)
      && (run.outcome.Resolved? ==> |run.calls| == |chunks| - k)
    decreases |chunks| - k
  {
    if k < |chunks| {
      var request := SavePartRequest(fileId, k, totalParts, chunks[k]);
      var call := send(request, k, defaultDc);
      if call.outcome == Resolved(true) {
        UploadProgress(chunks, fileId, totalParts, k + 1, call.defaultDc, send);
        var rest := UploadFrom(chunks, fileId, totalParts, k + 1, call.defaultDc, send);
        var run := UploadFrom(chunks, fileId, totalParts, k, defaultDc, send);
        assert run.calls == [call] + rest.calls;
        assert run.partIdx == rest.partIdx;
        assert forall j :: 0 < j < |run.calls| ==> run.calls[j] == rest.calls[j - 1];
      }
    }
  }

  /** Where an upload from block k stops when it does not resolve: paused
      on the one call after the acknowledged parts, which was not a truthy
      acknowledgement. A falsy acknowledgement rejects with that part's
      message, a rejected call leaves the promise unsettled with the
      rejection unhandled, and an unsettled call leaves it unsettled. */
  lemma {:induction false} UploadStop(chunks: seq<Bytes>, fileId: int, totalParts: nat, k: nat,
                                      defaultDc: NumberValue, send: Send)
    requires k <= |chunks|
    ensures var run := UploadFrom(chunks, fileId, totalParts, k, defaultDc, send);
      !run.outcome.Resolved? ==>
        && k <= run.partIdx && |run.calls| == run.partIdx - k + 1 && run.paused
        && var last := run.calls[run.partIdx - k].outcome;
           && last != Resolved(true)
           && (last == Resolved(false) ==>
                 run.outcome == Rejected(PlainError(FailedPartMessage(run.partIdx))) && run.unhandled.None?)
           && (last.Rejected? ==> run.outcome == Pending && run.unhandled == Some(last.error))
           && (last.Pending? ==> run.outcome == Pending && run.unhandled.None?)
    decreases |chunks| - k
  {
    if k < |chunks| {
      var request := SavePartRequest(fileId, k, totalParts, chunks[k]);
      var call := send(request, k, defaultDc);
      var run := UploadFrom(chunks, fileId, totalParts, k, defaultDc, send);
      if call.outcome == Resolved(true) {
        UploadStop(chunks, fileId, totalParts, k + 1, call.defaultDc, send);
        var rest := UploadFrom(chunks, fileId, totalParts, k + 1, call.defaultDc, send);
        assert run == Resume([request], [call], rest);
        assert run.outcome == rest.outcome && run.partIdx == rest.partIdx;
        assert run.paused == rest.paused && run.unhandled == rest.unhandled;
        if !rest.outcome.Resolved? {
          assert run.calls[run.partIdx - k] == rest.calls[rest.partIdx - (k + 1)];
        }
      } else {
        match call.outcome {
          case Resolved(acknowledged) =>
            assert run == UploadRun(Rejected(PlainError(FailedPartMessage(k))), [request], [call], k, true, None,
                                    call.defaultDc);
          case Rejected(e) =>
            assert run == UploadRun(Pending, [request], [call], k, true, Some(e), call.defaultDc);
          case Pending =>
            assert run == UploadRun(Pending, [request], [call], k, true, None, call.defaultDc);
        }
      }
    }
  }

  /** How an upload from block k ends: the two lemmas above together, with
      the handle of a resolved upload. `partIdx` has counted the truthy
      acknowledgements. The promise resolves exactly when every block was
      acknowledged, with the handle of the file id and the declared part
      count, the stream running. Otherwise the stream stays paused on the
      part that was not acknowledged: a falsy acknowledgement rejects with
      that part's message, a rejected call leaves the promise unsettled with
      the rejection unhandled, and an unsettled call leaves it unsettled. */
  lemma UploadOutcome(chunks: seq<Bytes>, fileId: int, totalParts: nat, k: nat,
                      defaultDc: NumberValue, send: Send)
    requires k <= |chunks|
    ensures var run := UploadFrom(chunks, fileId, totalParts, k, defaultDc, send);
      && k <= run.partIdx <= |chunks|
      && run.partIdx - k <= |run.calls| <= run.partIdx - k + 1
      && (forall j :: 0 <= j < run.partIdx - k ==> run.calls[j].outcome == Resolved(true))
      && (run.outcome.Resolved? <==> run.partIdx == |chunks|)
      && (run.outcome.Resolved? ==>
            && run.outcome.value == InputFileBig(fileId, totalParts)
            && |run.calls| == |chunks| - k && !run.paused && run.unhandled.None?)
      && (!run.outcome.Resolved? ==>
            && |run.calls| == run.partIdx - k + 1 && run.paused
            && var last := run.calls[run.partIdx - k].outcome;
               && last != Resolved(true)
               && (last == Resolved(false) ==>
                     run.outcome == Rejected(PlainError(FailedPartMessage(run.partIdx))) && run.unhandled.None?)
               && (last.Rejected? ==> run.outcome == Pending && run.unhandled == Some(last.error))
               && (last.Pending? ==> run.outcome == Pending && run.unhandled.None?))
  {
    UploadProgress(chunks, fileId, totalParts, k, defaultDc, send);
    UploadStop(chunks, fileId, totalParts, k, defaultDc, send);
  }

  /** In `uploadFile`, block j goes as part j to its own `callApi` chain with
      the default options, from the default data centre the part before it
      left, answered by `remote[j]`. */
  lemma PartCalls(chunks: seq<Bytes>, size: nat, fileId: int, defaultDc: NumberValue,
                  remote: seq<seq<Response<bool>>>, j: nat)
    requires j < |UploadFrom(chunks, fileId, TotalParts(size), 0, defaultDc, PartSend(remote)).calls|
    ensures var run := UploadFrom(chunks, fileId, TotalParts(size), 0, defaultDc, PartSend(remote));
      && j < |run.requests| && j < |chunks|
      && run.requests[j] == SavePartRequest(fileId, j, TotalParts(size), chunks[j])
      && run.calls[j] == CallApiSpec(run.requests[j], NoOptions, DcBefore(run.calls, j, defaultDc),
                                     ScriptFor(remote, j))
  {
    var send := PartSend(remote);
    var run := UploadFrom(chunks, fileId, TotalParts(size), 0, defaultDc, send);
    UploadRequests(chunks, fileId, TotalParts(size), 0, defaultDc, send);
    UploadChain(chunks, fileId, TotalParts(size), 0, defaultDc, send, j);
    var dc := DcBefore(run.calls, j, defaultDc);
    assert run.calls[j] == send(run.requests[j], j, dc);
  }

  /** When the remote acknowledges every part at its first attempt, the
      upload of a content's blocks with the content's size resolves with a
      handle whose part count is the number of parts sent. */
  lemma AcknowledgedUpload(content: Bytes, fileId: int, defaultDc: NumberValue,
                           remote: seq<seq<Response<bool>>>)
    requires forall j :: 0 <= j < |remote| ==> |remote[j]| > 0 && remote[j][0] == Answer(true)
    requires |remote| >= TotalParts(|content|)
    ensures var run := UploadFrom(Blocks(content), fileId, TotalParts(|content|), 0, defaultDc, PartSend(remote));
      && run.outcome == Resolved(InputFileBig(fileId, |run.calls|))
      && |run.calls| == TotalParts(|content|)
  {
    var chunks := Blocks(content);
    BlocksMatchDeclaredParts(content);
    var send := PartSend(remote);
    UploadOutcome(chunks, fileId, TotalParts(|content|), 0, defaultDc, send);
    var run := UploadFrom(chunks, fileId, TotalParts(|content|), 0, defaultDc, send);
    if !run.outcome.Resolved? {
      var j := run.partIdx;
      PartCalls(chunks, |content|, fileId, defaultDc, remote, j);
      assert false;
    }
  }

  /** The content cut into consecutive blocks of PART_SIZE bytes, the last
      one shorter if need be and none empty (no padding). */
  function Blocks(content: Bytes): seq<Bytes>
    decreases |content|
  {
    if |content| <= PART_SIZE then (if content == [] then [] else [content])
    else [content[..PART_SIZE]] + Blocks(content[PART_SIZE..])
  }

  /** Unpadded blocks of a content are `ceil(size / PART_SIZE)` in number. */
  lemma {:induction false} BlocksCount(content: Bytes)
    ensures |Blocks(content)| == TotalParts(|content|)
    decreases |content|
  {
    if |content| > PART_SIZE {
      BlocksCount(content[PART_SIZE..]);
      TotalPartsStep(|content|);
    } else if content != [] {
      TotalPartsUnique(|content|, 1);
    }
  }

  /** Unpadded blocks of a content hold the content, in order. */
  lemma {:induction false} BlocksConcat(content: Bytes)
    ensures Concat(Blocks(content)) == content
    decreases |content|
  {
    if |content| > PART_SIZE {
      var tail := content[PART_SIZE..];
      BlocksConcat(tail);
      var b := Blocks(content);
      assert b[1..] == Blocks(tail);
      assert content == content[..PART_SIZE] + tail;
    }
  }

  /** All unpadded blocks but the last are full, and the last holds the
      remainder. */
  lemma {:induction false} BlocksSizes(content: Bytes)
    ensures forall k :: 0 <= k < |Blocks(content)| - 1 ==> |Blocks(content)[k]| == PART_SIZE
    ensures Blocks(content) != [] ==>
              |Blocks(content)[|Blocks(content)| - 1]| == |content| - (|Blocks(content)| - 1) * PART_SIZE
    decreases |content|
  {
    if |content| > PART_SIZE {
      var tail := content[PART_SIZE..];
      BlocksSizes(tail);
      var b := Blocks(content);
      assert b == [content[..PART_SIZE]] + Blocks(tail);
      assert forall k :: 1 <= k < |b| ==> b[k] == Blocks(tail)[k - 1];
      assert (|b| - 1) * PART_SIZE == PART_SIZE + (|Blocks(tail)| - 1) * PART_SIZE;
    }
  }

  /** So when the declared size is the content's length, the handle's part
      count equals the number of parts sent, and the parts are the content. */
  lemma BlocksMatchDeclaredParts(content: Bytes)
    ensures |Blocks(content)| == TotalParts(|content|)
    ensures Concat(Blocks(content)) == content
    ensures forall k :: 0 <= k < |Blocks(content)| - 1 ==> |Blocks(content)[k]| == PART_SIZE
    ensures Blocks(content) != [] ==>
              |Blocks(content)[|Blocks(content)| - 1]| == |content| - (|Blocks(content)| - 1) * PART_SIZE
  {
    BlocksCount(content);
    BlocksConcat(content);
    BlocksSizes(content);
  }

  /** 1,300,000 bytes go as 3 parts of 524288, 524288 and 251424 bytes. */
  lemma ThreePartExample(content: Bytes)
    requires |content| == 1300000
    ensures TotalParts(|content|) == 3
    ensures |Blocks(content)| == 3
    ensures |Blocks(content)[0]| == 524288 && |Blocks(content)[1]| == 524288 && |Blocks(content)[2]| == 251424
  {
    BlocksMatchDeclaredParts(content);
  }
}
