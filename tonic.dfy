/** Abstract tonic values: a request's metadata and a gRPC failure status. */
module Tonic {

  /** The status codes this service produces. */
  datatype Code = NotFound | Unauthenticated

  datatype Status = Status(code: Code, message: string)

  /**
   * A request as an interceptor sees it. Each metadata key maps to the value
   * `MetadataMap::get` returns for it (the first, when a key is repeated).
   */
  datatype Request = Request(metadata: map<string, string>)
}
