/**
 * The errors of the service layer: `APIError` for request construction and
 * response classification, and `APIDomainError` for an error body the
 * caller's error type decodes.
 */
module APIErrors {
  import opened Wrappers
  import opened Foundation

  datatype APIError =
    | InvalidQueryItems(items: Option<seq<QueryItem>>)
    | InvalidURL(url: string)
    | ResponseErrorFailedToDecode(cause: DecodingError)
    | ResponseFailedWithoutErrorBody(response: HTTPURLResponse)
    | Unauthorized
    | UnknownResponseType

  datatype APIDomainError<CustomError> = ResponseFailedWithError(error: CustomError)

  /** What `APIService.send` can fail with: one of the library's own errors, a domain error, the
      body encoder's error, the response decoder's error, or the session's error passed on. */
  datatype ServiceError<CustomError, SessionError> =
    | API(apiError: APIError)
    | Domain(domainError: APIDomainError<CustomError>)
    | Encoding(encodingError: EncodingError)
    | Decoding(decodingError: DecodingError)
    | Session(sessionError: SessionError)
}
