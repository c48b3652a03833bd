/** The `/categories` handlers: how each turns what the category service produced
    into an envelope, a not-found error or a rethrown error. */
module CategoriesController {
  import opened Values
  import opened ApiResponses
  import opened Service
  import TransformInterceptor

  const NotFoundMessage := "Category not found"
  const CreatedMessage := "Category created successfully"
  const ListedMessage := "Categories retrieved successfully"
  const RetrievedMessage := "Category retrieved successfully"
  const UpdatedMessage := "Category updated successfully"
  const DeletedMessage := "Category deleted successfully"
  const ProductsPrefix := "Products in category '"
  const ProductsSuffix := "' retrieved successfully"

  /** The message of `findProductsByCategory`: the name appears verbatim between
      the fixed opening and closing texts. */
  function ProductsMessage(name: string): (r: string)
    ensures |r| == |ProductsPrefix| + |name| + |ProductsSuffix|
    ensures r[..|ProductsPrefix|] == ProductsPrefix
    ensures r[|ProductsPrefix|..|ProductsPrefix| + |name|] == name
    ensures r[|ProductsPrefix| + |name|..] == ProductsSuffix
  {
    ProductsPrefix + name + ProductsSuffix
  }

  /** `POST /categories`: the created category under "Category created successfully". */
  function Create(svc: Service, body: Value): (h: Handled)
    ensures h.calls == [Call.Create(body)]
    ensures match svc(Call.Create(body))
      case Resolved(c) => SucceedsWith(h.reply, c, CreatedMessage)
      case Rejected(e) => h.reply == Rethrow(e)
  {
    var calls := [Call.Create(body)];
    match svc(Call.Create(body))
    case Resolved(c) => Handled(Respond(Success(c, Some(CreatedMessage))), calls)
    case Rejected(e) => Handled(Rethrow(e), calls)
  }

  /** `GET /categories`: the service's list, unchanged, under "Categories retrieved successfully". */
  function FindAll(svc: Service): (h: Handled)
    ensures h.calls == [Call.FindAll]
    ensures match svc(Call.FindAll)
      case Resolved(cs) => SucceedsWith(h.reply, cs, ListedMessage)
      case Rejected(e) => h.reply == Rethrow(e)
  {
    var calls := [Call.FindAll];
    match svc(Call.FindAll)
    case Resolved(cs) => Handled(Respond(Success(cs, Some(ListedMessage))), calls)
    case Rejected(e) => Handled(Rethrow(e), calls)
  }

  /** `GET /categories/:id`: not found exactly when the lookup yields nothing. */
  function FindOne(svc: Service, id: int): (h: Handled)
    ensures h.calls == [Call.FindOne(id)]
    ensures match svc(Call.FindOne(id))
      case Resolved(c) =>
        && (h.reply == NotFound(NotFoundMessage) <==> Falsy(c))
        && (!Falsy(c) ==> SucceedsWith(h.reply, c, RetrievedMessage))
      case Rejected(e) => h.reply == Rethrow(e)
  {
    var calls := [Call.FindOne(id)];
    match svc(Call.FindOne(id))
    case Rejected(e) => Handled(Rethrow(e), calls)
    case Resolved(c) =>
      if Falsy(c) then Handled(NotFound(NotFoundMessage), calls)
      else Handled(Respond(Success(c, Some(RetrievedMessage))), calls)
  }

  /** `GET /categories/:id/products`: the category is looked up first; the products
      are listed only when it exists, and the message names it. */
  function FindProductsByCategory(svc: Service, id: int): (h: Handled)
    ensures var found := svc(Call.FindOne(id));
      h.calls == if found.Resolved? && !Falsy(found.value)
                 then [Call.FindOne(id), Call.FindProductsByCategory(id)]
                 else [Call.FindOne(id)]
    ensures match svc(Call.FindOne(id))
      case Rejected(e) => h.reply == Rethrow(e)
      case Resolved(c) =>
        && (h.reply == NotFound(NotFoundMessage) <==> Falsy(c))
        && (!Falsy(c) ==>
              match svc(Call.FindProductsByCategory(id))
              case Resolved(ps) => SucceedsWith(h.reply, ps, ProductsMessage(Text(Property(c, "name"))))
              case Rejected(e) => h.reply == Rethrow(e))
  {
    var lookup := [Call.FindOne(id)];
    match svc(Call.FindOne(id))
    case Rejected(e) => Handled(Rethrow(e), lookup)
    case Resolved(c) =>
      if Falsy(c) then Handled(NotFound(NotFoundMessage), lookup)
      else
        var calls := lookup + [Call.FindProductsByCategory(id)];
        match svc(Call.FindProductsByCategory(id))
        case Rejected(e) => Handled(Rethrow(e), calls)
        case Resolved(ps) =>
          Handled(Respond(Success(ps, Some(ProductsMessage(Text(Property(c, "name")))))), calls)
  }

  /** `PATCH /categories/:id`: the updated category, or not found when the storage
      layer reports a missing record; any other error passes through. */
  function Update(svc: Service, id: int, body: Value): (h: Handled)
    ensures h.calls == [Call.Update(id, body)]
    ensures match svc(Call.Update(id, body))
      case Resolved(c) => SucceedsWith(h.reply, c, UpdatedMessage)
      case Rejected(e) =>
        && (IsRecordNotFound(e) ==> h.reply == NotFound(NotFoundMessage))
        && (!IsRecordNotFound(e) ==> h.reply == Rethrow(e))
  {
    var calls := [Call.Update(id, body)];
    match svc(Call.Update(id, body))
    case Resolved(c) => Handled(Respond(Success(c, Some(UpdatedMessage))), calls)
    case Rejected(e) => Handled(CatchRecordNotFound(e, NotFoundMessage), calls)
  }

  /** `DELETE /categories/:id`: `data` is `null` whatever the deletion returned. */
  function Remove(svc: Service, id: int): (h: Handled)
    ensures h.calls == [Call.Remove(id)]
    ensures match svc(Call.Remove(id))
      case Resolved(_) => SucceedsWith(h.reply, Null, DeletedMessage)
      case Rejected(e) =>
        && (IsRecordNotFound(e) ==> h.reply == NotFound(NotFoundMessage))
        && (!IsRecordNotFound(e) ==> h.reply == Rethrow(e))
  {
    var calls := [Call.Remove(id)];
    match svc(Call.Remove(id))
    case Resolved(_) => Handled(Respond(Success(Null, Some(DeletedMessage))), calls)
    case Rejected(e) => Handled(CatchRecordNotFound(e, NotFoundMessage), calls)
  }

  /** The name in a products message can be read back: two messages are equal only
      when they name the same category. */
  lemma {:induction false} ProductsMessageNamesCategory(a: string, b: string)
    ensures ProductsMessage(a) == ProductsMessage(b) <==> a == b
  {
    if ProductsMessage(a) == ProductsMessage(b) {
      var m := ProductsMessage(a);
      var p := |ProductsPrefix|;
      var s := |ProductsSuffix|;
      assert |a| == |b| by {
        assert |m| == p + |a| + s;
      }
      assert a == m[p..|m| - s];
      assert b == ProductsMessage(b)[p..|m| - s];
    }
  }

  /** Listing products answers "not found" exactly when looking the category up
      does, and fails the same way when the lookup fails. */
  lemma ProductsLookupGuardedLikeFindOne(svc: Service, id: int)
    ensures FindProductsByCategory(svc, id).reply.NotFound? <==> FindOne(svc, id).reply.NotFound?
    ensures FindOne(svc, id).reply.Rethrow? ==> FindProductsByCategory(svc, id).reply == FindOne(svc, id).reply
    ensures FindProductsByCategory(svc, id).reply.Respond? ==> FindOne(svc, id).reply.Respond?
  {
  }

  /** `update` and `remove` translate a given rejection the same way. */
  lemma UpdateAndRemoveCatchAlike(svc: Service, id: int, body: Value)
    requires svc(Call.Update(id, body)).Rejected? && svc(Call.Remove(id)) == svc(Call.Update(id, body))
    ensures Update(svc, id, body).reply == Remove(svc, id).reply
  {
  }

  /** Every envelope this controller returns is a success envelope and reaches the
      client unchanged through the response interceptor; failures leave as errors. */
  lemma RepliesAreFinalSuccessEnvelopes(svc: Service, id: int, body: Value, h: Handled)
    requires h in {Create(svc, body), FindAll(svc), FindOne(svc, id), FindProductsByCategory(svc, id),
                   Update(svc, id, body), Remove(svc, id)}
    requires h.reply.Respond?
    ensures IsSuccessShaped(h.reply.body)
    ensures TransformInterceptor.Transform(Response(h.reply.body)) == h.reply.body
  {
  }
}
