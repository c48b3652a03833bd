/** The global response interceptor: whatever a handler returns is sent as an
    envelope, and an envelope is sent as it is. */
module TransformInterceptor {
  import opened Values
  import opened ApiResponses

  /** The `map` callback of `intercept`. */
  function Transform(v: Value): (r: ApiResponse)
    ensures v.Response? ==> r == v.response
    ensures !v.Response? ==> IsSuccessShaped(r) && r.data == v && r.meta == Undefined
    ensures !v.Response? ==> r.message == DefaultSuccessMessage
  {
    match v
    case Response(e) => e
    case _ => Success(v)
  }

  /** Transforming an already transformed value changes nothing. */
  lemma TransformIdempotent(v: Value)
    ensures Transform(Response(Transform(v))) == Transform(v)
  {
  }

  /** An error envelope reaches the client as an error envelope, never re-wrapped
      as a success. */
  lemma ErrorEnvelopeNotRewrapped(v: Value)
    requires v.Response? && !v.response.success
    ensures !Transform(v).success && Transform(v) == v.response
  {
  }

  /** The envelopes are exactly the fixed points: a value passes through unchanged
      if and only if it already is an envelope. */
  lemma FixedPointsAreEnvelopes(v: Value)
    ensures Response(Transform(v)) == v <==> v.Response?
  {
  }

  /** Plain values are never confused: two different plain values become two
      different envelopes, and the plain value is recovered from `data`. */
  lemma TransformInjectiveOnPlainValues(a: Value, b: Value)
    requires !a.Response? && !b.Response?
    ensures Transform(a) == Transform(b) <==> a == b
    ensures Transform(a).data == a
  {
  }
}
