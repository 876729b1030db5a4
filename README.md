# tgbucket: the Telegram storage service, modelled in Dafny

tgbucket stores files in a Telegram account. `TelegramService` is its core.

- **Upload.** It cuts an upload into 512 KiB parts. Each part is sent with `upload.saveBigFilePart`, one at a time. The result is a handle `{_: 'inputFileBig', id, parts}`.
- **Publish.** It posts the uploaded file to the account itself as a document, with `messages.sendMedia`.
- **Download.** It reads a stored document back as 512 KiB windows with `upload.getFile`, pushing each window into a stream in order.
- **File reference.** It reads a message's current file reference, with `messages.getMessages`.
- **Retries.** Every remote call goes through `callApi`, which applies Telegram's error conventions:
  - A 420 `FLOOD_WAIT_X` waits X seconds and repeats the call.
  - A 303 `PHONE_MIGRATE_X` moves the process-wide default data centre to X and repeats the call.
  - Any other `<TYPE>_MIGRATE_X` repeats the call with `dcId = X` in a copy of the call's options.
  - Every other rejection is passed on unchanged.

`GlobalExceptionFilter.catch` turns whatever reaches the HTTP layer into exactly one HTTP exception:

- a bad request is passed on as it is;
- a missing file or user becomes a 404 that keeps the exception's message;
- everything else becomes a 500.

## How the model is built

- **The remote is a script.** Each remote call is given the responses to its attempts, in order: an answer, or an error. For a chain of calls, call k is given `remote[k]`. A call whose responses run out has not settled (`Pending`). That is how the model covers a promise that never settles, and how it bounds `callApi`'s unbounded recursion.
- **The default data centre is a value.** It is threaded into each call and out of it. The call options are values too, so "the caller's options object is not mutated" holds by construction.
- **`callApi`.**
  - `ResilientCall.RetryRun` writes it as the recursion the source has, for any recovery policy (a function from an error and the call's options to a recovery). `ResilientCall.CallApiSpec` is that recursion under the service's own policy.
  - `ResilientCall.CallApi` writes it as a loop over the route state: the options and the default data centre.
  - The loop is proved equal to the recursion.
  - The recovery taken after a failed attempt is `ResilientCall.Recover`.
  - The trace lemmas hold for every policy, and so for `Recover`. The lemmas about error messages are stated about `Recover` alone.
- **The drivers are methods with loops.**
  - The upload handler sequence is a `while` loop and the download loop is a `for` loop.
  - Each is proved equal to a recursive description, `Upload.UploadFrom` and `Download.DownloadFrom`.
  - Each description takes the part or window call as a parameter. The methods fix it to the `callApi` chain of that request: `Upload.PartSend` and `Download.WindowFetch`.
  - The properties are lemmas about those descriptions.
- **JavaScript text is modelled explicitly.** `split`, unary `+` and the rendering of numbers in template strings are written out in `JsText`.
- **Upload, as the code is written.**
  - A part call that is rejected escapes the async `'data'` handler as an unhandled rejection (src/telegram/telegram.service.ts:32-46). It is never passed to `uploadFile`'s caller, and the upload promise never settles.
  - The model follows the code: the upload ends `Pending`, with the rejection recorded in `unhandled`.

## Model

| member | source | states |
|---|---|---|
| TelegramTypes.TotalParts | src/telegram/telegram.service.ts:19-25 | the part count is the least n with n * 524288 >= size: `Math.ceil(size / PART_SIZE)` |
| TelegramTypes.TotalPartsUnique | src/telegram/telegram.service.ts:19-25 | `ceil(size / PART_SIZE)` is the only count whose parts cover the size with no empty part |
| TelegramTypes.TotalPartsStep | src/telegram/telegram.service.ts:19-25 | a size past one part needs one part more than the size less one part |
| JsText.IndexOf | src/telegram/telegram.service.ts:188 | the result is the first position at or after `from` where the separator occurs; none means it occurs nowhere there |
| JsText.Split | src/telegram/telegram.service.ts:198 | `split` always yields at least one piece |
| JsText.JoinSplit | src/telegram/telegram.service.ts:198 | joining the pieces of a split with the separator gives back the text |
| JsText.IndexOfFinds | src/telegram/telegram.service.ts:188 | the first occurrence of the separator is what `indexOf` finds |
| JsText.IndexOfMisses | src/telegram/telegram.service.ts:188 | a separator that occurs nowhere is not found |
| JsText.SplitLeftmost | src/telegram/telegram.service.ts:198 | `split` cuts at the leftmost occurrences: the separator starts inside no piece, not even one running on into the text after it |
| JsText.SplitPiecesLackSeparator | src/telegram/telegram.service.ts:198 | no piece of a split contains the separator |
| JsText.SplitJoin | src/telegram/telegram.service.ts:198 | splitting a join of pieces that lack the separator's first character gives back exactly the pieces |
| JsText.SplitAtMarker | src/telegram/telegram.service.ts:188 | text with the marker between two marker-free texts splits into exactly those two, so `[1]` is the text after the marker |
| JsText.SplitAroundTwice | src/files/exceptions/file-not-exist.exception.ts:3 | a quoted argument between two quote-free texts is read back by splitting on the quote |
| JsText.DecimalString | src/telegram/telegram.service.ts:41 | a rendered non-negative number is a non-empty string of decimal digits |
| JsText.DecimalRoundTrip | src/telegram/telegram.service.ts:41 | reading back a rendered number gives the number |
| JsText.NumberStringChars | src/telegram/telegram.service.ts:165 | a rendered integer holds only a minus sign and digits |
| JsText.UnaryPlus | src/telegram/telegram.service.ts:188 | `+undefined` is NaN and `+""` is 0 |
| JsText.UnaryPlusOfDecimal | src/telegram/telegram.service.ts:188 | `+` of a rendered number gives the number |
| ResilientCall.Recover | src/telegram/telegram.service.ts:184-216 | the `catch` handler's decision: a 420 waits, a 303 moves the default data centre or retries with a copy of the options that differs in `dcId` alone, and an error without a code or with any other code is rejected |
| ResilientCall.CallApiSpec | src/telegram/telegram.service.ts:171-218 | `callApi` makes at most one attempt per response; it never rejects with a 420 or a 303 error, and every retry answers one of them |
| ResilientCall.RetryRun | src/telegram/telegram.service.ts:171-218 | under any recovery policy, a run makes at most one attempt per response, at least one when there is a response, and one recovery between consecutive attempts |
| ResilientCall.CallApi | src/telegram/telegram.service.ts:171-218 | the retry loop over options and default data centre gives exactly the run of the recursive `callApi` |
| ResilientCall.TraceKeepsRequest | src/telegram/telegram.service.ts:176-212 | under any policy, every attempt is for the same method and params; the first uses the caller's options and default data centre |
| ResilientCall.TraceFollowsPolicy | src/telegram/telegram.service.ts:184-213 | under any policy, each retry follows a failed attempt whose error is recoverable; the recovery is the policy's for that error and that attempt's options; the next attempt is the one the recovery produces |
| ResilientCall.TraceEnds | src/telegram/telegram.service.ts:176-216 | under any policy, a run resolves with the very first answer, or rejects with the very first unrecoverable error after a failed attempt, or is pending exactly when every response was a recoverable failure |
| ResilientCall.TraceLeavesDc | src/telegram/telegram.service.ts:194-212 | under any policy, a run leaves the default data centre its last attempt used, moved by the last recovery when that attempt failed and was to be retried, and untouched when there was no response at all |
| ResilientCall.RejectsExactly | src/telegram/telegram.service.ts:184-216 | an error is passed on unretried if and only if it has no code or its code is neither 420 nor 303 |
| ResilientCall.FatalErrorNotRetried | src/telegram/telegram.service.ts:216 | an unrecoverable first error rejects as that same error after one attempt, with no recovery |
| ResilientCall.FloodWaitMessage | src/telegram/telegram.service.ts:187-195 | `FLOOD_WAIT_n` waits n * 1000 ms, and the retry is the identical attempt |
| ResilientCall.MigrateMessage | src/telegram/telegram.service.ts:197-213 | `PHONE_MIGRATE_n` moves the default data centre to n and keeps the options; `<TYPE>_MIGRATE_n` for any other TYPE retries with a copy of the options whose `dcId` is n and whose other keys are kept, the default staying put |
| ResilientCall.RetryOnce | src/telegram/telegram.service.ts:184-213 | under any policy, a recoverable failure then an answer gives two attempts, the second the one the recovery produces, and the answer |
| ResilientCall.FloodWaitFiveExample | src/telegram/telegram.service.ts:187-195 | `FLOOD_WAIT_5` then an answer: one 5000 ms wait, two identical attempts, and the answer |
| ResilientCall.UserMigrateExample | src/telegram/telegram.service.ts:205-212 | `USER_MIGRATE_7` then an answer: the retry carries `dcId` 7 and the default does not move |
| ResilientCall.PhoneMigrateExample | src/telegram/telegram.service.ts:203-204 | `PHONE_MIGRATE_2` then an answer: the default becomes 2 and the retry keeps the options |
| Upload.UploadBigFilePart | src/telegram/telegram.service.ts:60-72 | a part is one `callApi` chain of `upload.saveBigFilePart` with file id, part, total parts and bytes, and the default options |
| Upload.FailedPartMessage | src/telegram/telegram.service.ts:41 | `Failed to upload <partIdx> file part`: reading the decimal text between the fixed texts gives back the part index |
| Upload.UploadFrom | src/telegram/telegram.service.ts:29-54 | the block handlers as a recursion: one call per request; `partIdx` never moves back; a resolved upload's handle has the file id and the declared part count and leaves the stream running with nothing unhandled |
| Upload.UploadFile | src/telegram/telegram.service.ts:23-58 | the `'data'`/`'end'` handler loop, with pause and resume around each part call, gives exactly the upload described by `UploadFrom` with the declared-size part count |
| Upload.UploadRequests | src/telegram/telegram.service.ts:29-44 | block j goes as part j, one call per block in order, each with the same file id and the declared total part count, so no index is sent twice |
| Upload.UploadChain | src/telegram/telegram.service.ts:34-39 | part j is sent from the default data centre that part j-1 left |
| Upload.UploadLeavesDc | src/telegram/telegram.service.ts:34-44 | the upload leaves the default data centre of its last part call |
| Upload.UploadProgress | src/telegram/telegram.service.ts:32-54 | `partIdx` counts the truthy acknowledgements in order, at most one call is made beyond them, and the promise resolves exactly when every block was acknowledged |
| Upload.UploadStop | src/telegram/telegram.service.ts:32-46 | an upload that does not resolve is paused on the one call after the acknowledged parts: a falsy ack rejects with that part's message, a rejected call leaves the promise unsettled with the rejection unhandled, an unsettled call leaves it unsettled |
| Upload.UploadOutcome | src/telegram/telegram.service.ts:32-54 | `partIdx` counts the truthy acknowledgements; the promise resolves exactly when every block was acknowledged, with `{inputFileBig, fileId, totalParts}` and the stream running; otherwise the stream stays paused on the unacknowledged part, and then: a falsy ack rejects with `Failed to upload <partIdx> file part`; a rejected call leaves the promise unsettled and the rejection unhandled; an unsettled call leaves it unsettled |
| Upload.PartCalls | src/telegram/telegram.service.ts:34-39 | in `uploadFile`, part j is the `callApi` chain of its own request under the default options, from the data centre the previous part left |
| Upload.AcknowledgedUpload | src/telegram/telegram.service.ts:25-54 | when every part is acknowledged, an upload of a content's blocks with the content's size resolves, and the handle's part count is the number of parts sent |
| Upload.BlocksCount | src/telegram/telegram.service.ts:25-27 | unpadded 512 KiB blocks of a content number `ceil(size / PART_SIZE)` |
| Upload.BlocksConcat | src/telegram/telegram.service.ts:25-27 | unpadded blocks concatenate to the content, in order |
| Upload.BlocksSizes | src/telegram/telegram.service.ts:25-27 | every block but the last is full, and the last holds the remainder |
| Upload.BlocksMatchDeclaredParts | src/telegram/telegram.service.ts:25-27 | unpadded 512 KiB blocks of a content number `ceil(size / PART_SIZE)`, concatenate to the content, are full except the last, and the last holds the remainder |
| Upload.ThreePartExample | src/telegram/telegram.service.ts:25-27 | 1,300,000 bytes go as 3 parts of 524288, 524288 and 251424 bytes |
| Download.GetFileDocument | src/telegram/telegram.service.ts:106-121 | a window is one `callApi` chain of `upload.getFile` with offset, limit and the document location, and the default options |
| Download.DownloadFrom | src/telegram/telegram.service.ts:85-99 | the window loop as a recursion: one call per request; an ended stream pushed one chunk per call, a destroyed or open one a chunk fewer than its calls |
| Download.DownloadFile | src/telegram/telegram.service.ts:74-104 | the `for` loop over windows gives exactly the download described by `DownloadFrom` with `ceil(fileSize / PART_SIZE)` windows |
| Download.DownloadRequests | src/telegram/telegram.service.ts:87-93 | window k asks for 524288 bytes at offset 524288 * k, in order, and at most `totalParts` windows are asked for |
| Download.DownloadChain | src/telegram/telegram.service.ts:87-93 | window j is fetched from the default data centre that window j-1 left |
| Download.DownloadLeavesDc | src/telegram/telegram.service.ts:87-96 | the download leaves the default data centre of its last window call |
| Download.WindowCalls | src/telegram/telegram.service.ts:87-93 | in `downloadFile`, window j is the `callApi` chain of `upload.getFile` at offset 524288 * j under the default options |
| Download.DownloadPushes | src/telegram/telegram.service.ts:86-99 | the stream holds each fetched window's bytes in order; it ends exactly when every window was fetched; otherwise the last window issued did not resolve, no later offset was asked for, and the stream is destroyed with that error, or stays open while the call is unsettled |
| Download.EmptyDownload | src/telegram/telegram.service.ts:78-96 | a size of 0 makes no call and ends the stream at once |
| Download.Window | src/telegram/telegram.service.ts:88-92 | a window served from a content holds at most `limit` bytes |
| Download.WindowsFrom | src/telegram/telegram.service.ts:87-94 | the served windows from window k on concatenate to the content from offset 524288 * k |
| Download.WindowsReassemble | src/telegram/telegram.service.ts:87-94 | served windows of a content of the declared size concatenate to the content, with no gap or overlap |
| Download.ServedDownload | src/telegram/telegram.service.ts:87-96 | when every window is served from a content, the download pushes exactly those windows in order and ends |
| Download.ServedDownloadReassembles | src/telegram/telegram.service.ts:78-96 | a `downloadFile` whose every window is served from a content ends, and the pushed chunks concatenate to that content |
| Selection.IsNewMessageUpdate | src/telegram/telegram.service.ts:147-149 | an update is selected exactly when it is an `updateNewMessage` update, whatever its message; a missing update is not |
| Selection.FirstNewMessage | src/telegram/telegram.service.ts:137-149 | `find(isNewMessageUpdate)` stops at the first update tagged `updateNewMessage`, and finds none only when there is none |
| Selection.SendMediaToSelf | src/telegram/telegram.service.ts:123-145 | one `callApi` chain of `messages.sendMedia` to self, as a forced file of type `application/octet-stream`; a failed or unsettled call is passed on; otherwise the result is the first new-message update if any exists, else `Telegram not return new message update` |
| Selection.GetMessageFileReference | src/telegram/telegram.service.ts:151-169 | one `callApi` chain of `messages.getMessages` for the id; a failed or unsettled call is passed on; an empty list rejects with `Failed get "<id>" message file reference`; otherwise the first message's document file reference |
| Selection.NoReferenceMessage | src/telegram/telegram.service.ts:165 | `Failed get "<id>" message file reference`: splitting it on the quote gives back the rendered id between the two fixed texts |
| GlobalFilter.FileNotExistMessage | src/files/exceptions/file-not-exist.exception.ts:3 | `File "<id>" not exist`: an id without a quote in it is read back by splitting the message on the quote |
| GlobalFilter.UserNotFoundMessage | src/telegram/exceptions/user-not-found.exception.ts:3 | `User with "<username>" username not found`: a username without a quote in it is read back by splitting the message on the quote |
| GlobalFilter.Catch | src/common/global.filter.ts:24-35 | exactly one HTTP exception of three kinds: the very exception when it is a bad request, a 404 with a not-found exception's own message, or a 500; its status is 400, 404 or 500 |
| GlobalFilter.CatchPassesBadRequest | src/common/global.filter.ts:24-27 | a bad request, and only a bad request, is passed on as the very same exception, with status 400 |
| GlobalFilter.CatchNotFound | src/common/global.filter.ts:28-33 | a 404 comes exactly from a missing file or a missing user, and carries that exception's message |
| GlobalFilter.CatchFileNotExist | src/files/exceptions/file-not-exist.exception.ts:3 | a missing file's 404 reads `File "<id>" not exist` |
| GlobalFilter.CatchUserNotFound | src/telegram/exceptions/user-not-found.exception.ts:3 | a missing user's 404 reads `User with "<username>" username not found` |
| GlobalFilter.CatchDefaultsTo500 | src/common/global.filter.ts:24-35 | everything other than a bad request or a missing file or user becomes a bare 500: MTProto failures, invalid peer ids, other errors, other HTTP exceptions, and values that are not errors; a 500 status comes only from that case |
| GlobalFilter.CatchOverridesStatus | src/common/global.filter.ts:24-27 | a bad request keeps the status it would have had; any other HTTP exception, a 404 thrown elsewhere included, is answered with 500 |

## Left out

- The MTProto transport (`@mtproto/core`): connection, encryption and serialisation. Each `mtproto.call` is a scripted response; `setDefaultDc` is assumed to succeed and to take effect before the retry.
- Clock and randomness: `Date.now()` for the file id and `random_id` is a parameter. A `setTimeout` wait is recorded in the run's recoveries as its requested duration, not waited for.
- JsText.UnaryPlus: reads only the empty text and decimal digit text. JavaScript's other numeric forms (surrounding whitespace, a sign, hexadecimal, exponents, `Infinity`) are NaN in this model.
- Node's clamping of a NaN or out-of-range `setTimeout` delay to 1 ms is not modelled: the wait is recorded as the requested `NumberValue`.
- The part and window calls are modelled for the default options only, since that is what the service passes. The `syncAuth` option is carried but never set.
- `block-stream`: the chunks arrive as an input sequence. Whether the last block is zero-padded cannot be seen, so the driver takes any chunks. `Blocks`, `BlocksSizes`, `BlocksMatchDeclaredParts` and `ThreePartExample` describe the unpadded cut only; the size of the last part `block-stream` actually emits is not modelled.
- Node stream and event-loop machinery: `pause`/`resume` timing, `'data'`/`'end'` ordering, `Readable.push` buffering, and the missing backpressure in `downloadFile` (`_read` does nothing). The model records a stream's pushed chunks and its end marker or error, and a pause flag.
- `'error_code' in err` on a `null` or non-object rejection, which throws a `TypeError` in JavaScript. Rejection reasons are either MTProto errors or plain errors.
- A first message without document media in `getMessageFileReference` (such as `messageEmpty`) throws a `TypeError` in JavaScript; the model's messages always carry a document. A `null` first entry is rejected like an empty list, with the quoted-id message; the model's `Messages` holds no `null`, and entries after the first are never read.
- An answer to `messages.sendMedia` without an `updates` list (such as `updateShortSentMessage`) makes `updates.updates.find` throw a `TypeError` in JavaScript; the model's `Updates` always carries one.
- What the runtime does with the unhandled rejection of a failed part call. By default, Node 15 and later end the process. The model records the rejection in `unhandled` and leaves the upload pending.
- The messages of `MTProtoException` and `InvalidPeerIdException`: the filter answers both with a bare 500, so their texts never reach a response.
- Logging, and the hand-off to `BaseExceptionFilter.catch`. The filter's result is the one HTTP exception that would be handed on. `HttpException` classes other than `BadRequestException` are one kind with a status.
- HTTP ingress (the controllers), the orchestration services, persistence, configuration and bootstrap, and the interactive session generator: framework wiring and I/O outside this core.
- Other transfers running at the same time: they share one `mtproto` client and can move its default data centre (`setDefaultDc`, src/telegram/telegram.service.ts:204) between two calls of this one. The model threads the default data centre from each call to the next (`DcBefore`, `UploadChain`, `DownloadChain`, `TraceLeavesDc`), as if no other call ran in between.
- JavaScript numbers are doubles: `${n}` switches to exponent form from 1e21 on, and integers above 2^53 are inexact. The model's part indices, message ids and rendered numbers (`DecimalString`, `NumberString`) are exact unbounded integers.
- The unbounded retry recursion of `callApi`: a finite script bounds it, and a run that uses up its script is pending.
