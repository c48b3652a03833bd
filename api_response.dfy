/** The two factories of the response envelope. The envelope's constructor is the
    datatype constructor `Values.ApiResponse`, which keeps its five arguments as
    its five fields. */
module ApiResponses {
  import opened Values

  const DefaultSuccessMessage := "Success"
  const DefaultErrorMessage := "Error"

  /** `ApiResponse.success(data, message?, meta?)`: a successful envelope carrying
      `data`; its `error` is `null`, and an omitted message reads "Success". */
  function Success(data: Value, message: Option<string> := None, meta: Value := Undefined): (r: ApiResponse)
    ensures r.success && r.error == Null
    ensures r.data == data && r.meta == meta
    ensures message.Some? ==> r.message == message.value
    ensures message.None? ==> r.message == DefaultSuccessMessage
  {
    ApiResponse(true, message.GetOr(DefaultSuccessMessage), data, Null, meta)
  }

  /** `ApiResponse.error(message?, error?, meta?)`: a failed envelope with no
      `data`; an omitted message reads "Error". */
  function Error(message: Option<string> := None, error: Value := Undefined, meta: Value := Undefined): (r: ApiResponse)
    ensures !r.success && r.data == Undefined
    ensures r.error == error && r.meta == meta
    ensures message.Some? ==> r.message == message.value
    ensures message.None? ==> r.message == DefaultErrorMessage
  {
    ApiResponse(false, message.GetOr(DefaultErrorMessage), Undefined, error, meta)
  }

  /** An envelope as `success` builds it. */
  predicate IsSuccessShaped(r: ApiResponse) {
    r.success && r.error == Null
  }

  /** An envelope as `error` builds it. */
  predicate IsErrorShaped(r: ApiResponse) {
    !r.success && r.data == Undefined
  }

  /** The constructor stores its five arguments unchanged. */
  lemma ConstructorKeepsArguments(success: bool, message: string, data: Value, error: Value, meta: Value)
    ensures var r := ApiResponse(success, message, data, error, meta);
      r.success == success && r.message == message && r.data == data && r.error == error && r.meta == meta
  {
  }

  /** The envelopes `success` produces are exactly the success-shaped ones, and each
      is rebuilt from its own fields. */
  lemma SuccessRange(r: ApiResponse)
    ensures IsSuccessShaped(r) <==> r == Success(r.data, Some(r.message), r.meta)
  {
  }

  /** The envelopes `error` produces are exactly the error-shaped ones, and each is
      rebuilt from its own fields. */
  lemma ErrorRange(r: ApiResponse)
    ensures IsErrorShaped(r) <==> r == Error(Some(r.message), r.error, r.meta)
  {
  }

  /** No success envelope is an error envelope. */
  lemma SuccessAndErrorDisjoint(data: Value, m1: Option<string>, meta1: Value, m2: Option<string>, error: Value, meta2: Value)
    ensures Success(data, m1, meta1) != Error(m2, error, meta2)
  {
  }

  /** `success` is injective: the envelope determines data, message and meta. */
  lemma SuccessInjective(d1: Value, m1: string, x1: Value, d2: Value, m2: string, x2: Value)
    requires Success(d1, Some(m1), x1) == Success(d2, Some(m2), x2)
    ensures d1 == d2 && m1 == m2 && x1 == x2
  {
  }
}
