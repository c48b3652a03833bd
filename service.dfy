/** The services the controllers call, seen only through what their calls produce.
    Each service method is a single storage call, so its result is left open: a
    `Service` may give any outcome for any call, and every controller property
    below holds for all of them. */
module Service {
  import opened Values

  /** A call a controller makes on its service, with the arguments it passes. */
  datatype Call =
    | Create(body: Value)
    | FindAll
    | FindOne(id: int)
    | FindProductsByCategory(categoryId: int)
    | Update(id: int, body: Value)
    | Remove(id: int)

  /** A rejection: an error object, of which the controllers read only `code`
      (`Undefined` when it has none). */
  datatype Exception = Exception(name: string, message: string, code: Value)

  /** What awaiting a service call yields. */
  datatype Outcome = Resolved(value: Value) | Rejected(error: Exception)

  /** The service: the outcome of every call it can be asked to make. */
  type Service = Call -> Outcome

  /** How a controller method ends: it returns an envelope, throws a
      `NotFoundException` with a message, or lets an error through unchanged. */
  datatype Reply =
    | Respond(body: ApiResponse)
    | NotFound(message: string)
    | Rethrow(error: Exception)

  /** A controller method's reply together with the service calls it made, in order. */
  datatype Handled = Handled(reply: Reply, calls: seq<Call>)

  /** The storage layer's code for "the record to update or delete does not exist". */
  const RecordNotFoundCode := "P2025"

  /** `error.code === 'P2025'`. */
  predicate IsRecordNotFound(e: Exception) {
    e.code == Str(RecordNotFoundCode)
  }

  /** The `catch` block of `update` and `remove`: a missing record becomes a
      `NotFoundException` with the given message, any other error is rethrown. */
  function CatchRecordNotFound(e: Exception, notFoundMessage: string): (r: Reply)
    ensures r.NotFound? <==> IsRecordNotFound(e)
    ensures r.NotFound? ==> r.message == notFoundMessage
    ensures r.Rethrow? ==> r.error == e
    ensures !r.Respond?
  {
    if IsRecordNotFound(e) then NotFound(notFoundMessage) else Rethrow(e)
  }

  /** The reply is a success envelope, as `ApiResponse.success(data, message)`
      builds it, carrying `data` under `message` and no `meta`. */
  predicate SucceedsWith(r: Reply, data: Value, message: string) {
    && r.Respond?
    && r.body.success
    && r.body.error == Null
    && r.body.data == data
    && r.body.message == message
    && r.body.meta == Undefined
  }
}
