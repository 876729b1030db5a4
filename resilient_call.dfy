/**
 * `callApi`: one logical Telegram call wrapped in the retry policy of the
 * Telegram error conventions. A 420 `FLOOD_WAIT_X` waits X seconds and
 * repeats the call; a 303 `<TYPE>_MIGRATE_X` either moves the
 * process-wide default data centre (TYPE `PHONE`) or repeats the call with
 * `dcId = X` in a copy of the options; every other rejection is passed on.
 *
 * The remote side is a script: the response to each `mtproto.call`
 * attempt, in order. A call whose script runs out has not settled.
 */
module ResilientCall {
  import opened Wrappers
  import opened JsText
  import opened TelegramTypes

  /** The options object handed to `mtproto.call` (`dcId`, `syncAuth`). */
  datatype CallOptions = CallOptions(dcId: Option<NumberValue>, syncAuth: Option<bool>)

  /** `options = {}`, the default of every call the service makes. */
  const NoOptions: CallOptions := CallOptions(None, None)

  /** What the remote answers one attempt with. */
  datatype Response<T> = Answer(value: T) | Failure(error: ApiError)

  /** How a promise stands at the end of the script. */
  datatype Settlement<T> = Resolved(value: T) | Rejected(error: ApiError) | Pending

  /** One `mtproto.call(method, params, options)`, issued while the default
      data centre was `defaultDc`. */
  datatype Attempt = Attempt(request: Request, options: CallOptions, defaultDc: NumberValue)

  /** What the error handler decides for a failed attempt. */
  datatype Recovery =
    | FloodWait(ms: NumberValue)
    | SwitchDefaultDc(dcId: NumberValue)
    | Reroute(options: CallOptions)
    | Reject

  /** The record of one logical call: its settlement, every attempt, the
      recovery taken after each failed attempt that was retried, and the
      default data centre afterwards. */
  datatype CallRun<T> = CallRun(
    outcome: Settlement<T>,
    attempts: seq<Attempt>,
    recoveries: seq<Recovery>,
    defaultDc: NumberValue)

  const FLOOD_MARKER: string := "FLOOD_WAIT_"
  const MIGRATE_MARKER: string := "_MIGRATE_"

  /** The `catch` handler's policy for one rejection: a 420 waits, a 303
      either moves the default data centre or retries with a copy of the
      options that differs in `dcId` alone, and anything else is rejected. */
  function Recover(error: ApiError, options: CallOptions): (r: Recovery)
    ensures error.MTProtoError? && error.errorCode == 420 ==> r.FloodWait?
    ensures error.MTProtoError? && error.errorCode == 303 ==> r.SwitchDefaultDc? || r.Reroute?
    ensures error.PlainError? || (error.errorCode != 420 && error.errorCode != 303) ==> r.Reject?
    ensures r.Reroute? ==> r.options.dcId.Some? && r.options == options.(dcId := r.options.dcId)
  {
    match error
    case PlainError(_) => Reject
    case MTProtoError(code, message) =>
      if code == 420 then
        FloodWait(Times(UnaryPlus(At(Split(message, FLOOD_MARKER), 1)), 1000))
      else if code == 303 then
        var parts := Split(message, MIGRATE_MARKER);
        var dcId := UnaryPlus(At(parts, 1));
        if parts[0] == "PHONE" then SwitchDefaultDc(dcId)
        else Reroute(options.(dcId := Some(dcId)))
      else Reject
  }

  /** The attempt that follows `attempt` once `recovery` has been applied. */
  function Retried(attempt: Attempt, recovery: Recovery): Attempt
  {
    match recovery
    case SwitchDefaultDc(dc) => attempt.(defaultDc := dc)
    case Reroute(options) => attempt.(options := options)
    case _ => attempt
  }

  /** The wait of every flood-wait recovery, in order (the `setTimeout` delays). */
  function Waits(recoveries: seq<Recovery>): seq<NumberValue>
  {
    if recoveries == [] then []
    else (if recoveries[0].FloodWait? then [recoveries[0].ms] else []) + Waits(recoveries[1..])
  }

  function Extend<T>(attempts: seq<Attempt>, recoveries: seq<Recovery>, run: CallRun<T>): CallRun<T>
  {
    run.(attempts := attempts + run.attempts, recoveries := recoveries + run.recoveries)
  }

  /** What a recovery policy decides for a failed attempt with the given options. */
  type Policy = (ApiError, CallOptions) -> Recovery

  /** A chain of attempts under a recovery policy: a recursion that
      consumes one scripted response per attempt, stops at an answer or an
      error the policy rejects, and otherwise retries as the policy says. */
  function RetryRun<T>(policy: Policy, request: Request, options: CallOptions, defaultDc: NumberValue,
                       script: seq<Response<T>>): (run: CallRun<T>)
    decreases |script|
    ensures |run.attempts| <= |script|
    ensures script != [] ==> |run.attempts| >= 1
    ensures |run.recoveries| <= |run.attempts| <= |run.recoveries| + 1
  {
    if script == [] then CallRun(Pending, [], [], defaultDc)
    else
      var attempt := Attempt(request, options, defaultDc);
      match script[0]
      case Answer(v) => CallRun(Resolved(v), [attempt], [], defaultDc)
      case Failure(e) =>
        var recovery := policy(e, options);
        if recovery.Reject? then CallRun(Rejected(e), [attempt], [], defaultDc)
        else
          var next := Retried(attempt, recovery);
          Extend([attempt], [recovery], RetryRun(policy, request, next.options, next.defaultDc, script[1..]))
  }

  /** `callApi(method, params, options)` as the source writes it: the
      recursion under the service's recovery policy. It never gives up on a
      420 or a 303, and every retry answers one of them. */
  function CallApiSpec<T>(request: Request, options: CallOptions, defaultDc: NumberValue,
                          script: seq<Response<T>>): (run: CallRun<T>)
    ensures |run.recoveries| <= |run.attempts| <= |script|
    ensures run.outcome.Rejected? ==>
              run.outcome.error.PlainError? || (run.outcome.error.errorCode != 420 && run.outcome.error.errorCode != 303)
    ensures forall k :: 0 <= k < |run.recoveries| ==>
              && script[k].Failure? && script[k].error.MTProtoError?
              && (script[k].error.errorCode == 420 || script[k].error.errorCode == 303)
  {
    TraceEnds(Recover, request, options, defaultDc, script);
    TraceFollowsPolicy(Recover, request, options, defaultDc, script);
    RetryRun(Recover, request, options, defaultDc, script)
  }

  /** `callApi` as a loop over the route state `(options, defaultDc)`. */
  method CallApi<T>(request: Request, options: CallOptions, defaultDc: NumberValue,
                    script: seq<Response<T>>) returns (run: CallRun<T>)
    ensures run == CallApiSpec(request, options, defaultDc, script)
  {
    var opts, dc, rest := options, defaultDc, script;
    var attempts: seq<Attempt>, recoveries: seq<Recovery> := [], [];
    while rest != []
      invariant CallApiSpec(request, options, defaultDc, script)
             == Extend(attempts, recoveries, RetryRun(Recover, request, opts, dc, rest))
      decreases |rest|
    {
      var attempt := Attempt(request, opts, dc);
      match rest[0]
      case Answer(v) =>
        return CallRun(Resolved(v), attempts + [attempt], recoveries, dc);
      case Failure(e) =>
        var recovery := Recover(e, opts);
        if recovery.Reject? {
          return CallRun(Rejected(e), attempts + [attempt], recoveries, dc);
        }
        var next := Retried(attempt, recovery);
        ExtendTwice(attempts, recoveries, [attempt], [recovery],
                    RetryRun(Recover, request, next.options, next.defaultDc, rest[1..]));
        attempts, recoveries := attempts + [attempt], recoveries + [recovery];
        opts, dc, rest := next.options, next.defaultDc, rest[1..];
    }
    run := CallRun(Pending, attempts, recoveries, dc);
  }

  lemma ExtendTwice<T>(a1: seq<Attempt>, r1: seq<Recovery>, a2: seq<Attempt>, r2: seq<Recovery>, run: CallRun<T>)
    ensures Extend(a1, r1, Extend(a2, r2, run)) == Extend(a1 + a2, r1 + r2, run)
  {
    assert a1 + (a2 + run.attempts) == (a1 + a2) + run.attempts;
    assert r1 + (r2 + run.recoveries) == (r1 + r2) + run.recoveries;
  }

  /** Every attempt of one `callApi` run is for the same request, and the
      first one uses the caller's options and default data centre. */
  lemma {:induction false} TraceKeepsRequest<T>(policy: Policy, request: Request, options: CallOptions,
                                                defaultDc: NumberValue,
                                                script: seq<Response<T>>)
    ensures var run := RetryRun(policy, request, options, defaultDc, script);
      && (forall k :: 0 <= k < |run.attempts| ==> run.attempts[k].request == request)
      && (script != [] ==> run.attempts[0] == Attempt(request, options, defaultDc))
    decreases |script|
  {
    var run := RetryRun(policy, request, options, defaultDc, script);
    if script != [] && script[0].Failure? && !policy(script[0].error, options).Reject? {
      var attempt := Attempt(request, options, defaultDc);
      var next := Retried(attempt, policy(script[0].error, options));
      TraceKeepsRequest(policy, request, next.options, next.defaultDc, script[1..]);
      var sub := RetryRun(policy, request, next.options, next.defaultDc, script[1..]);
      assert run.attempts == [attempt] + sub.attempts;
    }
  }

  /** Each retried attempt failed with a recoverable error, its recovery is
      the one the policy prescribes for that error and the attempt's options,
      and the next attempt is the one that recovery produces. */
  lemma {:induction false} TraceFollowsPolicy<T>(policy: Policy, request: Request, options: CallOptions,
                                                 defaultDc: NumberValue,
                                                 script: seq<Response<T>>)
    ensures var run := RetryRun(policy, request, options, defaultDc, script);
      && (forall k :: 0 <= k < |run.recoveries| ==>
            && script[k].Failure?
            && run.recoveries[k] == policy(script[k].error, run.attempts[k].options)
            && !run.recoveries[k].Reject?)
      && (forall k :: 0 <= k < |run.attempts| - 1 ==>
            run.attempts[k + 1] == Retried(run.attempts[k], run.recoveries[k]))
    decreases |script|
  {
    var run := RetryRun(policy, request, options, defaultDc, script);
    if script != [] && script[0].Failure? && !policy(script[0].error, options).Reject? {
      var attempt := Attempt(request, options, defaultDc);
      var recovery := policy(script[0].error, options);
      var next := Retried(attempt, recovery);
      var sub := RetryRun(policy, request, next.options, next.defaultDc, script[1..]);
      TraceFollowsPolicy(policy, request, next.options, next.defaultDc, script[1..]);
      TraceKeepsRequest(policy, request, next.options, next.defaultDc, script[1..]);
      assert run.attempts == [attempt] + sub.attempts;
      assert run.recoveries == [recovery] + sub.recoveries;
      forall k | 1 <= k < |run.recoveries|
        ensures script[k].Failure?
        ensures run.recoveries[k] == policy(script[k].error, run.attempts[k].options)
      {
        assert script[k] == script[1..][k - 1];
      }
    }
  }

  /** A run stops at the first answer (resolved with that very value) or the
      first non-recoverable error (rejected with that very error); otherwise
      it has used up the script and is still pending. */
  lemma {:induction false} TraceEnds<T>(policy: Policy, request: Request, options: CallOptions, defaultDc: NumberValue,
                                        script: seq<Response<T>>)
    ensures var run := RetryRun(policy, request, options, defaultDc, script);
      && (run.outcome.Pending? <==> |run.recoveries| == |run.attempts| == |script|)
      && (!run.outcome.Pending? ==>
            && |run.recoveries| == |run.attempts| - 1
            && (run.outcome.Resolved? ==> script[|run.attempts| - 1] == Answer(run.outcome.value))
            && (run.outcome.Rejected? ==>
                  && script[|run.attempts| - 1] == Failure(run.outcome.error)
                  && policy(run.outcome.error, run.attempts[|run.attempts| - 1].options).Reject?))
    decreases |script|
  {
    var run := RetryRun(policy, request, options, defaultDc, script);
    if script != [] && script[0].Failure? && !policy(script[0].error, options).Reject? {
      var attempt := Attempt(request, options, defaultDc);
      var recovery := policy(script[0].error, options);
      var next := Retried(attempt, recovery);
      var sub := RetryRun(policy, request, next.options, next.defaultDc, script[1..]);
      TraceEnds(policy, request, next.options, next.defaultDc, script[1..]);
      assert run.attempts == [attempt] + sub.attempts;
      assert run.recoveries == [recovery] + sub.recoveries;
      if sub.attempts != [] {
        assert run.attempts[|run.attempts| - 1] == sub.attempts[|sub.attempts| - 1];
        assert script[|run.attempts| - 1] == script[1..][|sub.attempts| - 1];
      }
    }
  }

  /** A run leaves the default data centre as its last attempt saw it, moved
      by the last recovery when that attempt failed and was to be retried. */
  lemma {:induction false} TraceLeavesDc<T>(policy: Policy, request: Request, options: CallOptions, defaultDc: NumberValue,
                                            script: seq<Response<T>>)
    ensures var run := RetryRun(policy, request, options, defaultDc, script);
      && (|run.attempts| == |run.recoveries| + 1 ==>
            run.defaultDc == run.attempts[|run.attempts| - 1].defaultDc)
      && (|run.attempts| == |run.recoveries| && script != [] ==>
            run.defaultDc == Retried(run.attempts[|run.attempts| - 1], run.recoveries[|run.recoveries| - 1]).defaultDc)
      && (script == [] ==> run.defaultDc == defaultDc)
    decreases |script|
  {
    var run := RetryRun(policy, request, options, defaultDc, script);
    if script != [] && script[0].Failure? && !policy(script[0].error, options).Reject? {
      var attempt := Attempt(request, options, defaultDc);
      var recovery := policy(script[0].error, options);
      var next := Retried(attempt, recovery);
      var sub := RetryRun(policy, request, next.options, next.defaultDc, script[1..]);
      TraceLeavesDc(policy, request, next.options, next.defaultDc, script[1..]);
      assert run.attempts == [attempt] + sub.attempts;
      assert run.recoveries == [recovery] + sub.recoveries;
      if sub.attempts != [] {
        assert run.attempts[|run.attempts| - 1] == sub.attempts[|sub.attempts| - 1];
      }
      if sub.recoveries != [] {
        assert run.recoveries[|run.recoveries| - 1] == sub.recoveries[|sub.recoveries| - 1];
      }
    }
  }

  /** The rejections `callApi` passes on unchanged are exactly those without
      an error code and those whose code is neither 420 nor 303. */
  lemma RejectsExactly(error: ApiError, options: CallOptions)
    ensures Recover(error, options).Reject?
        <==> error.PlainError? || (error.errorCode != 420 && error.errorCode != 303)
  {
  }

  /** A non-recoverable first response is rejected as that very error,
      after one attempt and with nothing retried or rerouted. */
  lemma FatalErrorNotRetried<T>(request: Request, options: CallOptions, defaultDc: NumberValue,
                                script: seq<Response<T>>)
    requires script != [] && script[0].Failure?
    requires script[0].error.PlainError? || script[0].error.errorCode !in {420, 303}
    ensures CallApiSpec(request, options, defaultDc, script)
         == CallRun(Rejected(script[0].error), [Attempt(request, options, defaultDc)], [], defaultDc)
  {
  }

  /** `FLOOD_WAIT_<n>` (after any text without an `F`) waits n * 1000 ms and
      repeats the identical attempt. */
  lemma FloodWaitMessage(prefix: string, n: nat, attempt: Attempt)
    requires forall j :: 0 <= j < |prefix| ==> prefix[j] != 'F'
    ensures var r := Recover(MTProtoError(420, prefix + FLOOD_MARKER + DecimalString(n)), attempt.options);
      r == FloodWait(Number(n * 1000)) && Retried(attempt, r) == attempt
  {
    SplitAtMarker(prefix, FLOOD_MARKER, DecimalString(n));
    UnaryPlusOfDecimal(n);
  }

  /** `<TYPE>_MIGRATE_<n>` with an upper-case TYPE: for `PHONE` the default
      data centre becomes n and the options stay as they were; for any other
      TYPE the retry uses a copy of the options whose `dcId` is n (its other
      keys kept) and the default data centre does not move. */
  lemma MigrateMessage(kind: string, n: nat, attempt: Attempt)
    requires forall j :: 0 <= j < |kind| ==> 'A' <= kind[j] <= 'Z'
    ensures var r := Recover(MTProtoError(303, kind + MIGRATE_MARKER + DecimalString(n)), attempt.options);
      && (kind == "PHONE" ==>
            r == SwitchDefaultDc(Number(n))
            && Retried(attempt, r) == attempt.(defaultDc := Number(n)))
      && (kind != "PHONE" ==>
            r == Reroute(CallOptions(Some(Number(n)), attempt.options.syncAuth))
            && Retried(attempt, r) == attempt.(options := CallOptions(Some(Number(n)), attempt.options.syncAuth)))
  {
    SplitAtMarker(kind, MIGRATE_MARKER, DecimalString(n));
    UnaryPlusOfDecimal(n);
  }

  /** A recoverable failure followed by an answer: two attempts, the second
      the one the recovery produces, and the answer. */
  lemma RetryOnce<T>(policy: Policy, request: Request, options: CallOptions, defaultDc: NumberValue,
                     error: ApiError, v: T)
    requires !policy(error, options).Reject?
    ensures var first := Attempt(request, options, defaultDc);
      var second := Retried(first, policy(error, options));
      RetryRun(policy, request, options, defaultDc, [Failure(error), Answer(v)])
        == CallRun(Resolved(v), [first, second], [policy(error, options)], second.defaultDc)
  {
    var script: seq<Response<T>> := [Failure(error), Answer(v)];
    assert script[1..] == [Answer(v)];
  }

  /** A 420 `FLOOD_WAIT_5` followed by an answer: one 5000 ms wait, the same
      attempt twice, and the caller sees the answer. */
  lemma FloodWaitFiveExample<T>(request: Request, defaultDc: NumberValue, v: T)
    ensures var run := CallApiSpec(request, NoOptions, defaultDc,
                                   [Failure(MTProtoError(420, "FLOOD_WAIT_5")), Answer(v)]);
      && run.outcome == Resolved(v)
      && run.attempts == [Attempt(request, NoOptions, defaultDc), Attempt(request, NoOptions, defaultDc)]
      && Waits(run.recoveries) == [Number(5000)]
      && run.defaultDc == defaultDc
  {
    assert "FLOOD_WAIT_5" == "" + FLOOD_MARKER + DecimalString(5);
    FloodWaitMessage("", 5, Attempt(request, NoOptions, defaultDc));
    RetryOnce(Recover, request, NoOptions, defaultDc, MTProtoError(420, "FLOOD_WAIT_5"), v);
  }

  /** A 303 `USER_MIGRATE_7` followed by an answer: the retry goes to data
      centre 7 through the call's own options; the default does not move. */
  lemma UserMigrateExample<T>(request: Request, defaultDc: NumberValue, v: T)
    ensures var run := CallApiSpec(request, NoOptions, defaultDc,
                                   [Failure(MTProtoError(303, "USER_MIGRATE_7")), Answer(v)]);
      && run.outcome == Resolved(v)
      && run.attempts == [Attempt(request, NoOptions, defaultDc),
                          Attempt(request, CallOptions(Some(Number(7)), None), defaultDc)]
      && run.defaultDc == defaultDc
  {
    assert "USER_MIGRATE_7" == "USER" + MIGRATE_MARKER + DecimalString(7);
    MigrateMessage("USER", 7, Attempt(request, NoOptions, defaultDc));
    RetryOnce(Recover, request, NoOptions, defaultDc, MTProtoError(303, "USER_MIGRATE_7"), v);
  }

  /** A 303 `PHONE_MIGRATE_2` followed by an answer: the default data centre
      becomes 2 and the retry keeps the caller's options. */
  lemma PhoneMigrateExample<T>(request: Request, defaultDc: NumberValue, v: T)
    ensures var run := CallApiSpec(request, NoOptions, defaultDc,
                                   [Failure(MTProtoError(303, "PHONE_MIGRATE_2")), Answer(v)]);
      && run.outcome == Resolved(v)
      && run.attempts == [Attempt(request, NoOptions, defaultDc), Attempt(request, NoOptions, Number(2))]
      && run.defaultDc == Number(2)
  {
    assert "PHONE_MIGRATE_2" == "PHONE" + MIGRATE_MARKER + DecimalString(2);
    MigrateMessage("PHONE", 2, Attempt(request, NoOptions, defaultDc));
    RetryOnce(Recover, request, NoOptions, defaultDc, MTProtoError(303, "PHONE_MIGRATE_2"), v);
  }

  /** The responses the remote gives the attempts of the k-th call of a
      sequence: none once the scripts are used up. */
  function ScriptFor<T>(scripts: seq<seq<Response<T>>>, k: nat): seq<Response<T>>
  {
    if k < |scripts| then scripts[k] else []
  }

  /** The default data centre in force when the k-th call of a sequence
      starts: the one the previous call left. */
  function DcBefore<T>(calls: seq<CallRun<T>>, k: nat, defaultDc: NumberValue): NumberValue
    requires k <= |calls|
  {
    if k == 0 then defaultDc else calls[k - 1].defaultDc
  }
}
