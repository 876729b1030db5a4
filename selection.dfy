/**
 * `sendMediaToSelf` and `getMessageFileReference`: the two calls that
 * publish an uploaded file as a message to the account itself and read a
 * stored message's current file reference back, each one `callApi` chain
 * followed by a pick from its result.
 */
module Selection {
  import opened Wrappers
  import opened JsText
  import opened TelegramTypes
  import opened ResilientCall

  const NEW_MESSAGE_TAG: string := "updateNewMessage"

  /** The error `sendMediaToSelf` throws when no update announces the message. */
  const NO_NEW_MESSAGE: string := "Telegram not return new message update"

  /** `isNewMessageUpdate(update)`: `update?._ === 'updateNewMessage'`;
      a `null` or `undefined` element is not one. */
  function IsNewMessageUpdate(update: Update): (r: bool)
    ensures r <==> exists m :: update == Update("updateNewMessage", m)
  {
    update.Update? && update.tag == NEW_MESSAGE_TAG
  }

  /** The position `updates.find(isNewMessageUpdate)` stops at: the first
      new-message update, or none when there is none. */
  function FirstNewMessage(updates: seq<Update>): (r: Option<nat>)
    ensures r.Some? ==>
              && r.value < |updates| && IsNewMessageUpdate(updates[r.value])
              && forall j :: 0 <= j < r.value ==> !IsNewMessageUpdate(updates[j])
    ensures r.None? ==> forall j :: 0 <= j < |updates| ==> !IsNewMessageUpdate(updates[j])
    decreases |updates|
  {
    if updates == [] then None
    else if IsNewMessageUpdate(updates[0]) then Some(0)
    else match FirstNewMessage(updates[1..])
      case None => None
      case Some(i) => Some(i + 1)
  }

  /** The `messages.sendMedia` call: the uploaded big file as a document
      forced to stay a file, typed `application/octet-stream`, to the
      account itself. */
  function SendMediaRequest(inputFile: InputFileBig, randomId: int): Request
  {
    Request("messages.sendMedia",
            SendMedia(InputPeerSelf, InputMediaUploadedDocument(true, "application/octet-stream", inputFile), randomId))
  }

  /** `sendMediaToSelf(inputFile)` with `randomId` the caller's `Date.now()`
      and `script` the responses to the call's attempts. */
  method SendMediaToSelf(inputFile: InputFileBig, randomId: int, defaultDc: NumberValue,
                         script: seq<Response<Updates>>)
    returns (run: CallRun<Updates>, outcome: Settlement<Update>)
    ensures run == CallApiSpec(SendMediaRequest(inputFile, randomId), NoOptions, defaultDc, script)
    // a failed or unsettled call is passed on as it is
    ensures run.outcome.Rejected? ==> outcome == Rejected(run.outcome.error)
    ensures run.outcome.Pending? ==> outcome == Pending
    // otherwise: the first new-message update, or the error when there is none
    ensures run.outcome.Resolved? ==>
              var updates := run.outcome.value.updates;
              && (outcome.Resolved? <==> exists i :: 0 <= i < |updates| && IsNewMessageUpdate(updates[i]))
              && (outcome.Resolved? ==>
                    exists i :: 0 <= i < |updates| && updates[i] == outcome.value
                      && IsNewMessageUpdate(updates[i])
                      && forall j :: 0 <= j < i ==> !IsNewMessageUpdate(updates[j]))
              && (!outcome.Resolved? ==> outcome == Rejected(PlainError(NO_NEW_MESSAGE)))
  {
    run := CallApi(SendMediaRequest(inputFile, randomId), NoOptions, defaultDc, script);
    match run.outcome {
      case Resolved(result) =>
        match FirstNewMessage(result.updates) {
          case Some(i) => outcome := Resolved(result.updates[i]);
          case None => outcome := Rejected(PlainError(NO_NEW_MESSAGE));
        }
      case Rejected(e) => outcome := Rejected(e);
      case Pending => outcome := Pending;
    }
  }

  /** `Failed get "${messageId}" message file reference`: the id can be
      read back from between the quotes. */
  function NoReferenceMessage(messageId: int): (m: string)
    ensures Split(m, "\"") == ["Failed get ", NumberString(messageId), " message file reference"]
  {
    NumberStringChars(messageId);
    QuotedIdSplits(NumberString(messageId));
    "Failed get " + "\"" + NumberString(messageId) + "\"" + " message file reference"
  }

  /** The `messages.getMessages` call for the one message id. */
  function GetMessagesRequest(messageId: int): Request
  {
    Request("messages.getMessages", GetMessages([messageId]))
  }

  /** `getMessageFileReference(messageId)`: the file reference of the first
      message returned, or the error naming the id when none is. */
  method GetMessageFileReference(messageId: int, defaultDc: NumberValue, script: seq<Response<Messages>>)
    returns (run: CallRun<Messages>, outcome: Settlement<Bytes>)
    ensures run == CallApiSpec(GetMessagesRequest(messageId), NoOptions, defaultDc, script)
    ensures run.outcome.Rejected? ==> outcome == Rejected(run.outcome.error)
    ensures run.outcome.Pending? ==> outcome == Pending
    ensures run.outcome.Resolved? ==>
              var messages := run.outcome.value.messages;
              && (messages == [] ==> outcome == Rejected(PlainError(NoReferenceMessage(messageId))))
              && (messages != [] ==> outcome == Resolved(messages[0].document.fileReference))
  {
    run := CallApi(GetMessagesRequest(messageId), NoOptions, defaultDc, script);
    match run.outcome {
      case Resolved(result) =>
        if result.messages == [] {
          outcome := Rejected(PlainError(NoReferenceMessage(messageId)));
        } else {
          outcome := Resolved(result.messages[0].document.fileReference);
        }
      case Rejected(e) => outcome := Rejected(e);
      case Pending => outcome := Pending;
    }
  }

  /** The template around any quote-free text splits back into its three
      pieces. */
  lemma QuotedIdSplits(id: string)
    requires forall j :: 0 <= j < |id| ==> id[j] != '"'
    ensures Split("Failed get " + "\"" + id + "\"" + " message file reference", "\"")
            == ["Failed get ", id, " message file reference"]
  {
    TemplateHasNoQuote();
    SplitAroundTwice("Failed get ", "\"", id, " message file reference");
  }

  lemma TemplateHasNoQuote()
    ensures forall j :: 0 <= j < |"Failed get "| ==> "Failed get "[j] != '"'
    ensures forall j :: 0 <= j < |" message file reference"| ==> " message file reference"[j] != '"'
  {
  }
}
