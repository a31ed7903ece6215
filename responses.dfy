/** The JSON responses the error handlers build. */
module Responses {
  import opened Errors

  datatype Body =
    | StatusBody(statusCode: int, message: string)            // {"status_code": .., "message": ..}
    | ValidationBody(message: string, errors: seq<FieldError>) // {"message": .., "errors": [..]}
    | TextBody(text: string)                                  // a bare JSON string

  datatype Response = Response(status: int, body: Body)
}
