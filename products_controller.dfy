/** The `/products` handlers: how each turns what the product service produced into
    an envelope, a not-found error or a rethrown error. */
module ProductsController {
  import opened Values
  import opened ApiResponses
  import opened Service
  import TransformInterceptor

  const NotFoundMessage := "Product not found"
  const CreatedMessage := "Product created successfully"
  const ListedMessage := "Products retrieved successfully"
  const RetrievedMessage := "Product retrieved successfully"
  const UpdatedMessage := "Product updated successfully"
  const DeletedMessage := "Product deleted successfully"

  /** `POST /products`: the created product under "Product created successfully". */
  function Create(svc: Service, body: Value): (h: Handled)
    ensures h.calls == [Call.Create(body)]
    ensures match svc(Call.Create(body))
      case Resolved(p) => SucceedsWith(h.reply, p, CreatedMessage)
      case Rejected(e) => h.reply == Rethrow(e)
  {
    var calls := [Call.Create(body)];
    match svc(Call.Create(body))
    case Resolved(p) => Handled(Respond(Success(p, Some(CreatedMessage))), calls)
    case Rejected(e) => Handled(Rethrow(e), calls)
  }

  /** `GET /products`: the service's list, unchanged, under "Products retrieved successfully". */
  function FindAll(svc: Service): (h: Handled)
    ensures h.calls == [Call.FindAll]
    ensures match svc(Call.FindAll)
      case Resolved(ps) => SucceedsWith(h.reply, ps, ListedMessage)
      case Rejected(e) => h.reply == Rethrow(e)
  {
    var calls := [Call.FindAll];
    match svc(Call.FindAll)
    case Resolved(ps) => Handled(Respond(Success(ps, Some(ListedMessage))), calls)
    case Rejected(e) => Handled(Rethrow(e), calls)
  }

  /** `GET /products/:id`: not found exactly when the lookup yields nothing. */
  function FindOne(svc: Service, id: int): (h: Handled)
    ensures h.calls == [Call.FindOne(id)]
    ensures match svc(Call.FindOne(id))
      case Resolved(p) =>
        && (h.reply == NotFound(NotFoundMessage) <==> Falsy(p))
        && (!Falsy(p) ==> SucceedsWith(h.reply, p, RetrievedMessage))
      case Rejected(e) => h.reply == Rethrow(e)
  {
    var calls := [Call.FindOne(id)];
    match svc(Call.FindOne(id))
    case Rejected(e) => Handled(Rethrow(e), calls)
    case Resolved(p) =>
      if Falsy(p) then Handled(NotFound(NotFoundMessage), calls)
      else Handled(Respond(Success(p, Some(RetrievedMessage))), calls)
  }

  /** `PATCH /products/:id`: the updated product, or not found when the storage
      layer reports a missing record; any other error passes through. */
  function Update(svc: Service, id: int, body: Value): (h: Handled)
    ensures h.calls == [Call.Update(id, body)]
    ensures match svc(Call.Update(id, body))
      case Resolved(p) => SucceedsWith(h.reply, p, UpdatedMessage)
      case Rejected(e) =>
        && (IsRecordNotFound(e) ==> h.reply == NotFound(NotFoundMessage))
        && (!IsRecordNotFound(e) ==> h.reply == Rethrow(e))
  {
    var calls := [Call.Update(id, body)];
    match svc(Call.Update(id, body))
    case Resolved(p) => Handled(Respond(Success(p, Some(UpdatedMessage))), calls)
    case Rejected(e) => Handled(CatchRecordNotFound(e, NotFoundMessage), calls)
  }

  /** `DELETE /products/:id`: `data` is `null` whatever the deletion returned. */
  function Remove(svc: Service, id: int): (h: Handled)
    ensures h.calls == [Call.Remove(id)]
    ensures match svc(Call.Remove(id))
      case Resolved(_) => SucceedsWith(h.reply, Null, DeletedMessage)
      case Rejected(e) =>
        && (IsRecordNotFound(e) ==> h.reply == NotFound(NotFoundMessage))
        && (!IsRecordNotFound(e) ==> h.reply == Rethrow(e))
  {
    var calls := [Call.Remove(id)];
    match svc(Call.Remove(id))
    case Resolved(_) => Handled(Respond(Success(Null, Some(DeletedMessage))), calls)
    case Rejected(e) => Handled(CatchRecordNotFound(e, NotFoundMessage), calls)
  }

  /** Not found is answered only for an absent product or a missing-record error. */
  lemma NotFoundHasACause(svc: Service, id: int, body: Value)
    ensures FindOne(svc, id).reply.NotFound? ==> svc(Call.FindOne(id)).Resolved? && Falsy(svc(Call.FindOne(id)).value)
    ensures Update(svc, id, body).reply.NotFound? ==>
      svc(Call.Update(id, body)).Rejected? && IsRecordNotFound(svc(Call.Update(id, body)).error)
    ensures Remove(svc, id).reply.NotFound? ==>
      svc(Call.Remove(id)).Rejected? && IsRecordNotFound(svc(Call.Remove(id)).error)
  {
  }

  /** Every envelope this controller returns is a success envelope and reaches the
      client unchanged through the response interceptor; failures leave as errors. */
  lemma RepliesAreFinalSuccessEnvelopes(svc: Service, id: int, body: Value, h: Handled)
    requires h in {Create(svc, body), FindAll(svc), FindOne(svc, id), Update(svc, id, body), Remove(svc, id)}
    requires h.reply.Respond?
    ensures IsSuccessShaped(h.reply.body)
    ensures TransformInterceptor.Transform(Response(h.reply.body)) == h.reply.body
  {
  }
}
