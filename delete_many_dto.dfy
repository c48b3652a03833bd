/** The body of a batch delete: the ids of the products to delete. */
module DeleteManyDto {
  import opened Values
  import opened Validation

  /** The decorators of `DeleteManyDto.ids`. */
  const Rules: Schema := [
    PropertyRule("ids", [IsArray, ArrayNotEmpty, Each(IsInt), Each(Min(1.0))])
  ]

  /** An id as the body may carry it: an integer of at least 1. */
  predicate ValidId(v: Value) {
    v.Num? && Integral(v.n) && v.n >= 1.0
  }

  /** A body the pipe accepts: `ids` and nothing else, a non-empty array of valid ids. */
  predicate Valid(body: Body) {
    && body.Keys <= {"ids"}
    && "ids" in body
    && body["ids"].Arr?
    && |body["ids"].items| > 0
    && forall i :: 0 <= i < |body["ids"].items| ==> ValidId(body["ids"].items[i])
  }

  /** The decorators accept exactly the valid bodies. */
  lemma RulesAcceptExactlyValid(body: Body)
    ensures Accepts(Rules, body) <==> Valid(body)
  {
    AcceptsIff(Rules, body);
    assert Rules[0].key == "ids";
    assert DeclaredKeys(Rules) == {"ids"};
    var v := Get(body, "ids");
    AllHoldOfFour(IsArray, ArrayNotEmpty, Each(IsInt), Each(Min(1.0)), v);
    assert RuleHolds(Rules[0], body) <==> AllHold([IsArray, ArrayNotEmpty, Each(IsInt), Each(Min(1.0))], v);
    if v.Arr? {
      assert (Holds(Each(IsInt), v) && Holds(Each(Min(1.0)), v)) <==> forall i :: 0 <= i < |v.items| ==> ValidId(v.items[i]);
    }
    assert (forall i :: 0 <= i < |Rules| ==> RuleHolds(Rules[i], body)) <==> RuleHolds(Rules[0], body);
  }

  /** Each accepted id is an integer of at least 1, and there is at least one. */
  lemma AcceptedIds(body: Body)
    requires Accepts(Rules, body)
    ensures "ids" in body && body["ids"].Arr? && |body["ids"].items| >= 1
    ensures forall i :: 0 <= i < |body["ids"].items| ==> ValidId(body["ids"].items[i])
  {
    RulesAcceptExactlyValid(body);
  }

  /** A missing or empty list is refused. */
  lemma MissingOrEmptyRejected(body: Body)
    requires "ids" !in body || body["ids"] == Arr([])
    ensures !Accepts(Rules, body)
  {
    RulesAcceptExactlyValid(body);
  }

  /** One id below 1, or one that is not a whole number, refuses the whole list. */
  lemma BadIdRejected(items: seq<Value>, i: int)
    requires 0 <= i < |items|
    requires !items[i].Num? || !Integral(items[i].n) || items[i].n < 1.0
    ensures !Accepts(Rules, map["ids" := Arr(items)])
  {
    RulesAcceptExactlyValid(map["ids" := Arr(items)]);
  }

  /** The list `[1, 2]` is accepted. */
  lemma TwoIdsAccepted()
    ensures Accepts(Rules, map["ids" := Arr([Num(1.0), Num(2.0)])])
  {
    var body := map["ids" := Arr([Num(1.0), Num(2.0)])];
    assert body.Keys == {"ids"};
    assert ValidId(body["ids"].items[0]) && ValidId(body["ids"].items[1]);
    RulesAcceptExactlyValid(body);
  }
}
