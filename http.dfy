/** The responses the views return: a status code and the JSON body's shape. */
module Http {
  import opened Foreign

  datatype Body =
    | Message(text: string)                       // {"message": text}
    | Error(text: string)                         // {"error": text}
    | ValidationErrors                            // serializer.errors
    | Cooldown(wait: int)                         // {"error": "Please wait {wait}s before requesting another OTP"}
    | OtpVerified(tokens: TokenPair, role: string) // {"message": "OTP verified", "tokens": ..., "role": role}
    | ServerError                                 // {"error": str(e)} of an exception caught by the view
    | Created(text: string, id: nat)              // {"message": text, "<kind>_id": id}
    | Record(fields: map<string, string>)         // serializer.data of a saved record
    | BookingCreated(bookingId: nat, driver: int, status: string, createdAt: int)

  datatype Response = Response(status: nat, body: Body)

  const Ok: nat := 200
  const CreatedStatus: nat := 201
  const BadRequest: nat := 400
  const NotFound: nat := 404
  const TooManyRequests: nat := 429
  const InternalError: nat := 500
}
