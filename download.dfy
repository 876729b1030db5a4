/**
 * `downloadFile` and `getFileDocument`: a document of known size is read
 * as `ceil(fileSize / PART_SIZE)` windows of PART_SIZE bytes at offsets
 * 0, PART_SIZE, 2 * PART_SIZE, ..., each window's bytes pushed into the
 * returned stream in order, then the end marker; the first failed window
 * destroys the stream instead.
 */
module Download {
  import opened Wrappers
  import opened JsText
  import opened TelegramTypes
  import opened ResilientCall

  /** The `upload.getFile` call for one window of a stored document. */
  function GetFileRequest(location: FileLocation, offset: nat, limit: nat): Request
  {
    Request("upload.getFile",
            GetFile(offset, limit,
                    InputDocumentFileLocation(location.fileId, location.accessHash, location.fileReference)))
  }

  /** `PART_SIZE * partIdx`, the offset of the window with that index. */
  function Offset(partIdx: nat): nat
  {
    PART_SIZE * partIdx
  }

  /** `getFileDocument(fileLocation, offset, limit)`: one `callApi` chain for
      the window, with the default (empty) options. */
  method GetFileDocument(location: FileLocation, offset: nat, limit: nat,
                         defaultDc: NumberValue, script: seq<Response<UploadFile>>)
    returns (run: CallRun<UploadFile>)
    ensures run == CallApiSpec(GetFileRequest(location, offset, limit), NoOptions, defaultDc, script)
  {
    run := CallApi(GetFileRequest(location, offset, limit), NoOptions, defaultDc, script);
  }

  /** How the returned stream ends: `push(null)`, `destroy(error)`, or
      still open because a window has not settled. */
  datatype StreamEnd = Ended | Destroyed(error: ApiError) | Open

  /** The stream's pushed chunks and its end, with the window calls issued
      and how each went, and the default data centre afterwards. */
  datatype DownloadRun = DownloadRun(
    pushed: seq<Bytes>,
    end: StreamEnd,
    requests: seq<Request>,
    calls: seq<CallRun<UploadFile>>,
    defaultDc: NumberValue)

  /** Puts one fetched window's record in front of the rest of a download. */
  function Prepend(pushed: seq<Bytes>, requests: seq<Request>, calls: seq<CallRun<UploadFile>>,
                  run: DownloadRun): DownloadRun
  {
    run.(pushed := pushed + run.pushed, requests := requests + run.requests, calls := calls + run.calls)
  }

  /** How window k is fetched when the default data centre is dc. */
  type Fetch = (nat, NumberValue) -> CallRun<UploadFile>

  /** `getFileDocument` for window k: the `callApi` chain of its
      `upload.getFile` call, whose attempts `remote[k]` answers. */
  function WindowFetch(location: FileLocation, remote: seq<seq<Response<UploadFile>>>): Fetch
  {
    (k: nat, dc: NumberValue) =>
      CallApiSpec(GetFileRequest(location, Offset(k), PART_SIZE), NoOptions, dc, ScriptFor(remote, k))
  }

  /** The `for` loop of `downloadFile` from window `partIdx` on, as a
      recursion: fetch the window, push its bytes and go on, or destroy the
      stream with the error, or stay open while the window is unsettled;
      after the last window, push the end marker. */
  function DownloadFrom(location: FileLocation, totalParts: nat, partIdx: nat, defaultDc: NumberValue,
                        fetch: Fetch): (r: DownloadRun)
    decreases totalParts - partIdx
    ensures |r.requests| == |r.calls|
    ensures r.end == Ended ==> |r.pushed| == |r.calls|
    ensures r.end != Ended ==> |r.calls| == |r.pushed| + 1
  {
    if partIdx >= totalParts then DownloadRun([], Ended, [], [], defaultDc)
    else
      var request := GetFileRequest(location, Offset(partIdx), PART_SIZE);
      var call := fetch(partIdx, defaultDc);
      match call.outcome
      case Resolved(filePart) =>
        Prepend([filePart.bytes], [request], [call],
               DownloadFrom(location, totalParts, partIdx + 1, call.defaultDc, fetch))
      case Rejected(e) => DownloadRun([], Destroyed(e), [request], [call], call.defaultDc)
      case Pending => DownloadRun([], Open, [request], [call], call.defaultDc)
  }

  lemma PrependTwice(p1: seq<Bytes>, r1: seq<Request>, c1: seq<CallRun<UploadFile>>,
                    p2: seq<Bytes>, r2: seq<Request>, c2: seq<CallRun<UploadFile>>, run: DownloadRun)
    ensures Prepend(p1, r1, c1, Prepend(p2, r2, c2, run)) == Prepend(p1 + p2, r1 + r2, c1 + c2, run)
  {
    assert p1 + (p2 + run.pushed) == (p1 + p2) + run.pushed;
    assert r1 + (r2 + run.requests) == (r1 + r2) + run.requests;
    assert c1 + (c2 + run.calls) == (c1 + c2) + run.calls;
  }

  /** `downloadFile(fileLocation, fileSize)`: the stream's contents once the
      background loop has stopped. `remote[k]` are the responses to the
      attempts of window k. */
  method DownloadFile(location: FileLocation, fileSize: nat, defaultDc: NumberValue,
                      remote: seq<seq<Response<UploadFile>>>) returns (run: DownloadRun)
    ensures run == DownloadFrom(location, TotalParts(fileSize), 0, defaultDc, WindowFetch(location, remote))
  {
    var totalParts := TotalParts(fileSize);
    ghost var fetch := WindowFetch(location, remote);
    var pushed: seq<Bytes> := [];
    var requests: seq<Request>, calls: seq<CallRun<UploadFile>> := [], [];
    var dc := defaultDc;
    for partIdx := 0 to totalParts
      invariant DownloadFrom(location, totalParts, 0, defaultDc, fetch)
             == Prepend(pushed, requests, calls, DownloadFrom(location, totalParts, partIdx, dc, fetch))
    {
      var offset := Offset(partIdx);
      var request := GetFileRequest(location, offset, PART_SIZE);
      var call := GetFileDocument(location, offset, PART_SIZE, dc, ScriptFor(remote, partIdx));
      assert call == fetch(partIdx, dc);
      match call.outcome {
        case Resolved(filePart) =>
          assert DownloadFrom(location, totalParts, partIdx, dc, fetch)
              == Prepend([filePart.bytes], [request], [call],
                        DownloadFrom(location, totalParts, partIdx + 1, call.defaultDc, fetch));
          PrependTwice(pushed, requests, calls, [filePart.bytes], [request], [call],
                      DownloadFrom(location, totalParts, partIdx + 1, call.defaultDc, fetch));
          pushed, requests, calls := pushed + [filePart.bytes], requests + [request], calls + [call];
          dc := call.defaultDc;
        case Rejected(e) =>
          assert DownloadFrom(location, totalParts, partIdx, dc, fetch)
              == DownloadRun([], Destroyed(e), [request], [call], call.defaultDc);
          return DownloadRun(pushed, Destroyed(e), requests + [request], calls + [call], call.defaultDc);
        case Pending =>
          assert DownloadFrom(location, totalParts, partIdx, dc, fetch)
              == DownloadRun([], Open, [request], [call], call.defaultDc);
          return DownloadRun(pushed, Open, requests + [request], calls + [call], call.defaultDc);
      }
    }
    run := DownloadRun(pushed, Ended, requests, calls, dc);
  }

  /** Window k of a download asks for PART_SIZE bytes at offset
      k * PART_SIZE, and no more windows are asked for than the size needs. */
  lemma {:induction false} DownloadRequests(location: FileLocation, totalParts: nat, k: nat,
                                            defaultDc: NumberValue, fetch: Fetch)
    requires k <= totalParts
    ensures var run := DownloadFrom(location, totalParts, k, defaultDc, fetch);
      && |run.requests| == |run.calls| <= totalParts - k
      && forall j :: 0 <= j < |run.requests| ==>
           run.requests[j] == GetFileRequest(location, PART_SIZE * (k + j), PART_SIZE)
    decreases totalParts - k
  {
    if k < totalParts {
      var call := fetch(k, defaultDc);
      if call.outcome.Resolved? {
        DownloadRequests(location, totalParts, k + 1, call.defaultDc, fetch);
        var rest := DownloadFrom(location, totalParts, k + 1, call.defaultDc, fetch);
        var run := DownloadFrom(location, totalParts, k, defaultDc, fetch);
        assert run.requests == [GetFileRequest(location, Offset(k), PART_SIZE)] + rest.requests;
        forall j | 0 < j < |run.requests|
          ensures run.requests[j] == GetFileRequest(location, PART_SIZE * (k + j), PART_SIZE)
        {
          assert run.requests[j] == rest.requests[j - 1];
          assert k + 1 + (j - 1) == k + j;
        }
      }
    }
  }

  /** Window k + j is fetched from the default data centre the window before
      it left (the caller's for the first). */
  lemma {:induction false} DownloadChain(location: FileLocation, totalParts: nat, k: nat,
                                         defaultDc: NumberValue, fetch: Fetch, j: nat)
    requires j < |DownloadFrom(location, totalParts, k, defaultDc, fetch).calls|
    ensures var run := DownloadFrom(location, totalParts, k, defaultDc, fetch);
      run.calls[j] == fetch(k + j, DcBefore(run.calls, j, defaultDc))
    decreases j
  {
    if j > 0 {
      var call := fetch(k, defaultDc);
      var rest := DownloadFrom(location, totalParts, k + 1, call.defaultDc, fetch);
      var run := DownloadFrom(location, totalParts, k, defaultDc, fetch);
      assert call.outcome.Resolved? && run.calls == [call] + rest.calls;
      DownloadChain(location, totalParts, k + 1, call.defaultDc, fetch, j - 1);
      assert run.calls[j] == rest.calls[j - 1];
      assert DcBefore(run.calls, j, defaultDc) == DcBefore(rest.calls, j - 1, call.defaultDc);
      assert k + 1 + (j - 1) == k + j;
    }
  }

  /** The stream leaves the default data centre the last window left (the
      caller's when no window was fetched). */
  lemma {:induction false} DownloadLeavesDc(location: FileLocation, totalParts: nat, k: nat,
                                            defaultDc: NumberValue, fetch: Fetch)
    ensures var run := DownloadFrom(location, totalParts, k, defaultDc, fetch);
      run.defaultDc == DcBefore(run.calls, |run.calls|, defaultDc)
    decreases totalParts - k
  {
    if k < totalParts {
      var call := fetch(k, defaultDc);
      if call.outcome.Resolved? {
        DownloadLeavesDc(location, totalParts, k + 1, call.defaultDc, fetch);
        var rest := DownloadFrom(location, totalParts, k + 1, call.defaultDc, fetch);
        var run := DownloadFrom(location, totalParts, k, defaultDc, fetch);
        assert run.calls == [call] + rest.calls;
        assert DcBefore(run.calls, |run.calls|, defaultDc) == DcBefore(rest.calls, |rest.calls|, call.defaultDc);
      }
    }
  }

  /** In `downloadFile`, window j is the `callApi` chain of its own
      `upload.getFile` request with the default options, from the default
      data centre the window before it left, answered by `remote[j]`. */
  lemma WindowCalls(location: FileLocation, fileSize: nat, defaultDc: NumberValue,
                    remote: seq<seq<Response<UploadFile>>>, j: nat)
    requires j < |DownloadFrom(location, TotalParts(fileSize), 0, defaultDc, WindowFetch(location, remote)).calls|
    ensures var run := DownloadFrom(location, TotalParts(fileSize), 0, defaultDc, WindowFetch(location, remote));
      && j < |run.requests|
      && run.requests[j] == GetFileRequest(location, PART_SIZE * j, PART_SIZE)
      && run.calls[j] == CallApiSpec(run.requests[j], NoOptions, DcBefore(run.calls, j, defaultDc),
                                     ScriptFor(remote, j))
  {
    var fetch := WindowFetch(location, remote);
    var run := DownloadFrom(location, TotalParts(fileSize), 0, defaultDc, fetch);
    DownloadRequests(location, TotalParts(fileSize), 0, defaultDc, fetch);
    DownloadChain(location, TotalParts(fileSize), 0, defaultDc, fetch, j);
    var dc := DcBefore(run.calls, j, defaultDc);
    assert run.requests[j] == GetFileRequest(location, Offset(j), PART_SIZE);
    assert run.calls[j] == fetch(j, dc);
    assert fetch(j, dc) == CallApiSpec(GetFileRequest(location, Offset(j), PART_SIZE), NoOptions, dc, ScriptFor(remote, j));
  }

  /** What the stream holds: window j's bytes in position j, for every
      window fetched; it is ended exactly when every window was fetched;
      otherwise the last window issued is the one that did not resolve, and
      the stream is destroyed with its error or stays open with it. */
  lemma {:induction false} DownloadPushes(location: FileLocation, totalParts: nat, k: nat,
                                          defaultDc: NumberValue, fetch: Fetch)
    requires k <= totalParts
    ensures var run := DownloadFrom(location, totalParts, k, defaultDc, fetch);
      && |run.pushed| <= |run.calls| <= |run.pushed| + 1
      && (forall j :: 0 <= j < |run.pushed| ==>
            run.calls[j].outcome.Resolved? && run.pushed[j] == run.calls[j].outcome.value.bytes)
      && (run.end == Ended <==> |run.pushed| == totalParts - k)
      && (run.end == Ended ==> |run.calls| == |run.pushed|)
      && (run.end != Ended ==>
            && |run.calls| == |run.pushed| + 1
            && var last := run.calls[|run.pushed|].outcome;
               && !last.Resolved?
               && (last.Rejected? ==> run.end == Destroyed(last.error))
               && (last.Pending? ==> run.end == Open))
    decreases totalParts - k
  {
    if k < totalParts {
      var call := fetch(k, defaultDc);
      if call.outcome.Resolved? {
        DownloadPushes(location, totalParts, k + 1, call.defaultDc, fetch);
        var rest := DownloadFrom(location, totalParts, k + 1, call.defaultDc, fetch);
        var run := DownloadFrom(location, totalParts, k, defaultDc, fetch);
        assert run.pushed == [call.outcome.value.bytes] + rest.pushed;
        assert run.calls == [call] + rest.calls;
        assert forall j :: 0 < j < |run.calls| ==> run.calls[j] == rest.calls[j - 1];
        assert forall j :: 0 < j < |run.pushed| ==> run.pushed[j] == rest.pushed[j - 1];
      }
    }
  }

  /** `downloadFile` of a document of size 0 pushes the end marker at once
      and issues no call. */
  lemma EmptyDownload(location: FileLocation, defaultDc: NumberValue, fetch: Fetch)
    ensures DownloadFrom(location, TotalParts(0), 0, defaultDc, fetch) == DownloadRun([], Ended, [], [], defaultDc)
  {
    assert TotalParts(0) == 0;
  }

  /** When every window from k on is fetched as that window of `content`,
      the download pushes exactly those windows, in order, and ends. */
  lemma {:induction false} ServedDownload(content: Bytes, location: FileLocation, k: nat,
                                          defaultDc: NumberValue, fetch: Fetch)
    requires k <= TotalParts(|content|)
    requires forall j, dc :: k <= j < TotalParts(|content|) ==>
               fetch(j, dc).outcome.Resolved? && fetch(j, dc).outcome.value.bytes == Window(content, PART_SIZE * j, PART_SIZE)
    ensures var run := DownloadFrom(location, TotalParts(|content|), k, defaultDc, fetch);
      && run.end == Ended
      && |run.pushed| == TotalParts(|content|) - k
      && forall j :: 0 <= j < |run.pushed| ==> run.pushed[j] == Window(content, PART_SIZE * (k + j), PART_SIZE)
    decreases TotalParts(|content|) - k
  {
    var totalParts := TotalParts(|content|);
    if k < totalParts {
      var call := fetch(k, defaultDc);
      ServedDownload(content, location, k + 1, call.defaultDc, fetch);
      var rest := DownloadFrom(location, totalParts, k + 1, call.defaultDc, fetch);
      var run := DownloadFrom(location, totalParts, k, defaultDc, fetch);
      assert run.pushed == [call.outcome.value.bytes] + rest.pushed;
      forall j | 0 < j < |run.pushed|
        ensures run.pushed[j] == Window(content, PART_SIZE * (k + j), PART_SIZE)
      {
        assert run.pushed[j] == rest.pushed[j - 1];
        assert k + 1 + (j - 1) == k + j;
      }
    }
  }

  /** The remote serves window k of `content`: it answers that window's
      first attempt with that window. */
  predicate Serves(content: Bytes, remote: seq<seq<Response<UploadFile>>>, k: nat)
  {
    k < |remote| && |remote[k]| > 0 && remote[k][0].Answer?
    && remote[k][0].value.bytes == Window(content, PART_SIZE * k, PART_SIZE)
  }

  /** A `downloadFile` of a document whose every window the remote serves
      from `content` ends, and the pushed chunks concatenate to the content. */
  lemma ServedDownloadReassembles(content: Bytes, location: FileLocation, defaultDc: NumberValue,
                                  remote: seq<seq<Response<UploadFile>>>)
    requires forall j :: 0 <= j < TotalParts(|content|) ==> Serves(content, remote, j)
    ensures var run := DownloadFrom(location, TotalParts(|content|), 0, defaultDc, WindowFetch(location, remote));
      run.end == Ended && Concat(run.pushed) == content
  {
    var fetch := WindowFetch(location, remote);
    forall j, dc | 0 <= j < TotalParts(|content|)
      ensures fetch(j, dc).outcome.Resolved?
      ensures fetch(j, dc).outcome.value.bytes == Window(content, PART_SIZE * j, PART_SIZE)
    {
      assert Serves(content, remote, j);
      assert ScriptFor(remote, j)[0] == remote[j][0];
    }
    ServedDownload(content, location, 0, defaultDc, fetch);
    var run := DownloadFrom(location, TotalParts(|content|), 0, defaultDc, fetch);
    WindowsReassemble(content, run.pushed);
  }

  /** The bytes `[offset, offset + limit)` of a content, cut at its end. */
  function Window(content: Bytes, offset: nat, limit: nat): (w: Bytes)
    ensures |w| <= limit
  {
    if offset >= |content| then []
    else if offset + limit >= |content| then content[offset..]
    else content[offset..offset + limit]
  }

  /** The windows from the k-th on, when the remote serves each window of
      the content, concatenate to the content from offset k * PART_SIZE. */
  lemma {:induction false} WindowsFrom(content: Bytes, chunks: seq<Bytes>, k: nat)
    requires |chunks| == TotalParts(|content|) && k <= |chunks|
    requires forall j :: 0 <= j < |chunks| ==> chunks[j] == Window(content, PART_SIZE * j, PART_SIZE)
    ensures k < |chunks| ==> PART_SIZE * k < |content|
    ensures Concat(chunks[k..]) == if k == |chunks| then [] else content[PART_SIZE * k..]
    decreases |chunks| - k
  {
    if k < |chunks| {
      WindowsFrom(content, chunks, k + 1);
      assert chunks[k..] == [chunks[k]] + chunks[k + 1..];
      assert chunks[k..][1..] == chunks[k + 1..];
      if k + 1 < |chunks| {
        assert content[PART_SIZE * k..] == content[PART_SIZE * k..PART_SIZE * (k + 1)] + content[PART_SIZE * (k + 1)..];
      }
    }
  }

  /** A download of a content's exact size whose every window was answered
      with that window of the content pushes the content exactly: no gap,
      no overlap, nothing past the end. */
  lemma WindowsReassemble(content: Bytes, chunks: seq<Bytes>)
    requires |chunks| == TotalParts(|content|)
    requires forall k :: 0 <= k < |chunks| ==> chunks[k] == Window(content, PART_SIZE * k, PART_SIZE)
    ensures Concat(chunks) == content
  {
    WindowsFrom(content, chunks, 0);
    assert chunks[0..] == chunks;
  }
}
