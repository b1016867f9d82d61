/**
 * The two request middlewares of the core: the upload filter and size limit
 * (backend/src/middleware/uploadMiddleware.js) and the error handler
 * (backend/src/middleware/errorHandler.js).
 */
module UploadMiddleware {
  import opened Text

  const IMAGE_PREFIX: string := "image/"
  const ONLY_IMAGES: string := "Only image files are allowed!"
  /** limits.fileSize: 5 * 1024 * 1024 bytes. */
  const MAX_FILE_SIZE: nat := 5 * 1024 * 1024

  /** What fileFilter passes to its callback: exactly one decision per file. */
  datatype FilterDecision = Accept | Reject(error: string)

  function FileFilter(mimetype: string): (d: FilterDecision)
    ensures d.Accept? <==> StartsWith(mimetype, IMAGE_PREFIX)
    ensures d.Reject? ==> d.error == ONLY_IMAGES
  {
    if StartsWith(mimetype, IMAGE_PREFIX) then Accept else Reject(ONLY_IMAGES)
  }

  /** What multer makes of one file: stored in memory, refused by the filter, or over the limit. */
  datatype UploadOutcome = Stored | Refused(error: string) | TooLarge

  /** The filter sees the file first; the limit applies to a file the filter accepted. */
  function ReceiveFile(mimetype: string, size: nat): (o: UploadOutcome)
    ensures o.Stored? <==> StartsWith(mimetype, IMAGE_PREFIX) && size <= MAX_FILE_SIZE
    ensures o.Refused? <==> !StartsWith(mimetype, IMAGE_PREFIX)
    ensures o.Refused? ==> o.error == ONLY_IMAGES
  {
    match FileFilter(mimetype)
    case Reject(e) => Refused(e)
    case Accept => if size <= MAX_FILE_SIZE then Stored else TooLarge
  }

  /** The limit in bytes is 5242880: a file of exactly that size is stored, one byte more is not. */
  lemma LimitBoundary(mimetype: string)
    requires StartsWith(mimetype, IMAGE_PREFIX)
    ensures ReceiveFile(mimetype, 5242880) == Stored
    ensures ReceiveFile(mimetype, 5242881) == TooLarge
  {
  }
}

module ErrorHandler {
  const DEFAULT_MESSAGE: string := "Server Error"
  /** The placeholder (U+1F95E, a pancakes emoji) that stands in for the stack in production. */
  const STACK_PLACEHOLDER: string := "\U{1F95E}"

  datatype ErrorResponse = ErrorResponse(status: nat, message: string, stack: string)

  /**
   * errorHandler: a response still at 200 becomes 500, any other status is
   * kept; the message falls back to "Server Error"; in production the stack
   * is hidden behind the placeholder.
   */
  function HandleError(currentStatus: nat, message: string, stack: string, production: bool): (r: ErrorResponse)
    ensures currentStatus == 200 ==> r.status == 500
    ensures currentStatus != 200 ==> r.status == currentStatus
    ensures r.status != 200
    ensures r.message != ""
    ensures message != "" ==> r.message == message
    ensures message == "" ==> r.message == DEFAULT_MESSAGE
    ensures production ==> r.stack == STACK_PLACEHOLDER
    ensures !production ==> r.stack == stack
  {
    ErrorResponse(if currentStatus == 200 then 500 else currentStatus,
                  if message != "" then message else DEFAULT_MESSAGE,
                  if production then STACK_PLACEHOLDER else stack)
  }
}
