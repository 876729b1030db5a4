/**
 * `GlobalExceptionFilter.catch`: every exception that reaches the HTTP
 * layer is turned into exactly one HTTP exception before it is handed on
 * to the framework's default handler. A bad request is passed on as it
 * is, a missing file or user becomes a 404 that keeps the exception's
 * message, and everything else becomes a plain 500.
 */
module GlobalFilter {
  import opened Wrappers
  import opened JsText

  /** What can be thrown into the filter, by class. */
  datatype Thrown =
    // `BadRequestException`, an `HttpException` of status 400
    | BadRequest(response: string)
    // any other `HttpException`
    | OtherHttp(status: int, response: string)
    | FileNotExist(fileId: string)
    | UserNotFound(username: string)
    | MTProtoFailure(errCode: int, errMessage: string)
    | InvalidPeerId(peerId: int)
    // any other `Error`
    | OtherError(message: string)
    // a thrown value that is not an `Error` at all
    | NotAnError

  /** The HTTP exception handed to the default handler. */
  datatype HttpException =
    | InternalServerError
    | NotFound(message: string)
    | PassedOn(exception: Thrown)

  /** `File "${fileId}" not exist`: an id without a quote in it is read
      back from between the quotes. */
  function FileNotExistMessage(fileId: string): (m: string)
    ensures (forall j :: 0 <= j < |fileId| ==> fileId[j] != '"') ==>
              Split(m, "\"") == ["File ", fileId, " not exist"]
  {
    FileMessageSplits(fileId);
    "File " + "\"" + fileId + "\"" + " not exist"
  }

  /** `User with "${username}" username not found`, likewise. */
  function UserNotFoundMessage(username: string): (m: string)
    ensures (forall j :: 0 <= j < |username| ==> username[j] != '"') ==>
              Split(m, "\"") == ["User with ", username, " username not found"]
  {
    UserMessageSplits(username);
    "User with " + "\"" + username + "\"" + " username not found"
  }

  /** `catch(exception, host)`: a 500 unless one of the three checks
      replaces it; a later check that matches wins. The result is one of
      three kinds only: a 500, a 404 that carries a not-found exception's
      message, or the exception itself when that is a bad request. */
  function Catch(exception: Thrown): (r: HttpException)
    ensures r.PassedOn? ==> r.exception == exception && exception.BadRequest?
    ensures r.NotFound? ==>
              || (exception.FileNotExist? && r.message == FileNotExistMessage(exception.fileId))
              || (exception.UserNotFound? && r.message == UserNotFoundMessage(exception.username))
    ensures Status(r) == 400 || Status(r) == 404 || Status(r) == 500
  {
    var initial := InternalServerError;
    var afterBadRequest := if exception.BadRequest? then PassedOn(exception) else initial;
    var afterFile := if exception.FileNotExist? then NotFound(FileNotExistMessage(exception.fileId)) else afterBadRequest;
    if exception.UserNotFound? then NotFound(UserNotFoundMessage(exception.username)) else afterFile
  }

  /** The status the framework's default handler answers a thrown value
      with: an HTTP exception's own, and 500 for anything else. */
  function ThrownStatus(exception: Thrown): int
  {
    match exception
    case BadRequest(_) => 400
    case OtherHttp(status, _) => status
    case _ => 500
  }

  /** The status of the HTTP exception handed on. */
  function Status(h: HttpException): int
  {
    match h
    case InternalServerError => 500
    case NotFound(_) => 404
    case PassedOn(exception) => ThrownStatus(exception)
  }

  /** A bad request, and only a bad request, is passed on the way it came. */
  lemma CatchPassesBadRequest(exception: Thrown)
    ensures Catch(exception).PassedOn? <==> exception.BadRequest?
    ensures Catch(exception).PassedOn? ==> Catch(exception).exception == exception && Status(Catch(exception)) == 400
  {
  }

  /** A 404 comes exactly from a missing file or user, and carries that
      exception's message. */
  lemma CatchNotFound(exception: Thrown)
    ensures Catch(exception).NotFound? <==> exception.FileNotExist? || exception.UserNotFound?
    ensures Catch(exception).NotFound? && exception.FileNotExist? ==>
              Catch(exception).message == FileNotExistMessage(exception.fileId)
    ensures Catch(exception).NotFound? && exception.UserNotFound? ==>
              Catch(exception).message == UserNotFoundMessage(exception.username)
  {
  }

  /** A missing file's 404 reads `File "<id>" not exist`. */
  lemma CatchFileNotExist(fileId: string)
    ensures Catch(FileNotExist(fileId)) == NotFound("File \"" + fileId + "\" not exist")
  {
  }

  /** A missing user's 404 reads `User with "<username>" username not found`. */
  lemma CatchUserNotFound(username: string)
    ensures Catch(UserNotFound(username)) == NotFound("User with \"" + username + "\" username not found")
  {
  }

  /** Everything else, errors of the application's own that are not
      special-cased (MTProto failures, invalid peer ids), other errors,
      other HTTP exceptions and values that are not errors, becomes a bare
      500. */
  lemma CatchDefaultsTo500(exception: Thrown)
    ensures Catch(exception) == InternalServerError
            <==> !(exception.BadRequest? || exception.FileNotExist? || exception.UserNotFound?)
    ensures Status(Catch(exception)) == 500 <==> Catch(exception) == InternalServerError
  {
  }

  /** Only a bad request keeps the status the default handler would give
      it: an HTTP exception of any other class, a 404 thrown elsewhere
      included, is answered with 500. */
  lemma CatchOverridesStatus(exception: Thrown)
    ensures exception.BadRequest? ==> Status(Catch(exception)) == ThrownStatus(exception)
    ensures exception.OtherHttp? ==> Status(Catch(exception)) == 500
  {
  }

  /** The file template around quote-free text splits back into its pieces. */
  lemma FileMessageSplits(fileId: string)
    ensures (forall j :: 0 <= j < |fileId| ==> fileId[j] != '"') ==>
              Split("File " + "\"" + fileId + "\"" + " not exist", "\"") == ["File ", fileId, " not exist"]
  {
    if forall j :: 0 <= j < |fileId| ==> fileId[j] != '"' {
      FileTemplateHasNoQuote();
      SplitAroundTwice("File ", "\"", fileId, " not exist");
    }
  }

  /** The user template around quote-free text splits back into its pieces. */
  lemma UserMessageSplits(username: string)
    ensures (forall j :: 0 <= j < |username| ==> username[j] != '"') ==>
              Split("User with " + "\"" + username + "\"" + " username not found", "\"")
              == ["User with ", username, " username not found"]
  {
    if forall j :: 0 <= j < |username| ==> username[j] != '"' {
      UserTemplateHasNoQuote();
      SplitAroundTwice("User with ", "\"", username, " username not found");
    }
  }

  lemma FileTemplateHasNoQuote()
    ensures forall j :: 0 <= j < |"File "| ==> "File "[j] != '"'
    ensures forall j :: 0 <= j < |" not exist"| ==> " not exist"[j] != '"'
  {
  }

  lemma UserTemplateHasNoQuote()
    ensures forall j :: 0 <= j < |"User with "| ==> "User with "[j] != '"'
    ensures forall j :: 0 <= j < |" username not found"| ==> " username not found"[j] != '"'
  {
  }
}
