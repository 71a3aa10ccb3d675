/** The part of an HTTP response that the controllers decide: the status
    code and what the body carries. Headers, content types and JSON
    serialisation are left to the web framework. */
module Http {

  const OK: nat := 200
  const CREATED: nat := 201
  const BAD_REQUEST: nat := 400
  const UNAUTHORIZED: nat := 401
  const NOT_FOUND: nat := 404
  const CONFLICT: nat := 409
  const INTERNAL_SERVER_ERROR: nat := 500

  /** A photo as the client sees it in a listing (model/Photo.java). */
  datatype PhotoModel = PhotoModel(id: nat, name: string, url: string, thumbnailUrl: string)

  datatype Body =
    | Empty
      /** the `success`/`message` response map */
    | Outcome(success: bool, message: string)
      /** the upload response map, which also carries the new record's id */
    | Uploaded(success: bool, message: string, photoId: nat)
      /** the `userExists` response map of the check endpoint */
    | UserCheck(userExists: bool)
      /** a file sent as an attachment: the suggested file name and the file's path */
    | Attachment(filename: string, path: string)
    | PhotoList(photos: seq<PhotoModel>)
      /** an exception no handler catches; the framework answers with its own error page */
    | Unhandled

  datatype Response = Response(status: nat, body: Body)
}
