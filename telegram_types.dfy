/**
 * The Telegram API shapes the service builds and reads, the errors a
 * remote call can fail with, and the 512 KiB part size shared by the
 * upload and download drivers.
 */
module TelegramTypes {
  import opened Wrappers

  newtype byte = b: int | 0 <= b < 256

  type Bytes = seq<byte>

  /** `PART_SIZE = 512 * 1024`: the size of an uploaded part and of a
      downloaded window. */
  const PART_SIZE: nat := 512 * 1024

  /** `Math.ceil(size / PART_SIZE)` for a non-negative integer size. */
  function TotalParts(size: nat): (parts: nat)
    ensures parts * PART_SIZE >= size
    ensures parts == 0 || (parts - 1) * PART_SIZE < size
  {
    (size + PART_SIZE - 1) / PART_SIZE
  }

  /** The part count is the only count whose parts just cover the size. */
  lemma TotalPartsUnique(size: nat, parts: nat)
    requires parts * PART_SIZE >= size
    requires parts == 0 || (parts - 1) * PART_SIZE < size
    ensures parts == TotalParts(size)
  {
  }

  /** One more full part for every PART_SIZE bytes past the first part. */
  lemma TotalPartsStep(size: nat)
    requires size > PART_SIZE
    ensures TotalParts(size) == TotalParts(size - PART_SIZE) + 1
  {
    TotalPartsUnique(size, TotalParts(size - PART_SIZE) + 1);
  }

  /** A rejection reason: an MTProto RPC error carries `error_code` and
      `error_message`; anything else is a plain `Error`. */
  datatype ApiError =
    | MTProtoError(errorCode: int, errorMessage: string)
    | PlainError(message: string)

  /** `{_: 'inputFileBig', id, parts}`. */
  datatype InputFileBig = InputFileBig(id: int, parts: nat)

  /** The caller's addressing triple of a stored document. */
  datatype FileLocation = FileLocation(fileId: string, accessHash: string, fileReference: Bytes)

  /** `{_: 'inputDocumentFileLocation', id, access_hash, file_reference}`. */
  datatype InputDocumentFileLocation =
    InputDocumentFileLocation(id: string, accessHash: string, fileReference: Bytes)

  /** `{_: 'upload.file', type, mtime, bytes}`. */
  datatype UploadFile = UploadFile(fileType: string, mtime: int, bytes: Bytes)

  datatype Document = Document(id: string, accessHash: string, fileReference: Bytes, size: nat, dcId: int)

  /** A message whose media is a document (`message.media.document`). */
  datatype Message = Message(id: int, document: Document)

  /** An element of `updates.updates`: `null`/`undefined`, or an object
      carrying its `_` tag (an `updateNewMessage` carries its message). */
  datatype Update =
    | NoUpdate
    | Update(tag: string, message: Option<Message>)

  datatype Updates = Updates(updates: seq<Update>)

  /** The `messages.getMessages` result: `{messages: Message[]}`. */
  datatype Messages = Messages(messages: seq<Message>)

  /** `{_: 'inputPeerSelf'}`, the only peer the service sends media to. */
  datatype InputPeer = InputPeerSelf

  /** `{_: 'inputMediaUploadedDocument', force_file, attributes: [], mime_type, file}`. */
  datatype InputMedia = InputMediaUploadedDocument(forceFile: bool, mimeType: string, file: InputFileBig)

  /** The parameter objects of the four API methods the service calls. */
  datatype Params =
    | SaveBigFilePart(fileId: int, filePart: nat, fileTotalParts: nat, bytes: Bytes)
    | GetFile(offset: nat, limit: nat, location: InputDocumentFileLocation)
    | SendMedia(peer: InputPeer, media: InputMedia, randomId: int)
    | GetMessages(ids: seq<int>)

  /** One logical remote call: the API method name and its parameters. */
  datatype Request = Request(methodName: string, params: Params)

  /** The bytes of a sequence of chunks, in order. */
  function Concat(chunks: seq<Bytes>): Bytes
    decreases |chunks|
  {
    if chunks == [] then [] else chunks[0] + Concat(chunks[1..])
  }
}
