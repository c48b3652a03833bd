/** The body of `PATCH /products/:id`. */
module UpdateProductDto {
  import opened Values
  import opened Validation
  import CreateProductDto

  /** The decorators of `UpdateProductDto`, property by property. The product's
      category and group are not among them. */
  const Rules: Schema := [
    PropertyRule("name", [IsOptional, IsString]),
    PropertyRule("description", [IsOptional, IsString]),
    PropertyRule("price", [IsOptional, IsNumber, Min(0.0)]),
    PropertyRule("stock", [IsOptional, IsNumber, Min(0.0)]),
    PropertyRule("image_url", [IsOptional, IsString])
  ]

  const Keys: set<string> := {"name", "description", "price", "stock", "image_url"}

  /** A body the endpoint accepts, field by field: every field optional, texts are
      texts (the name may be empty), price and stock are numbers of at least 0,
      and no other key. */
  predicate Valid(body: Body) {
    && body.Keys <= Keys
    && OptionalString(Get(body, "name"))
    && OptionalString(Get(body, "description"))
    && OptionalNonNegativeNumber(Get(body, "price"))
    && OptionalNonNegativeNumber(Get(body, "stock"))
    && OptionalString(Get(body, "image_url"))
  }

  lemma DeclaredKeysOfRules()
    ensures DeclaredKeys(Rules) == Keys
  {
    assert Rules[0].key == "name" && Rules[1].key == "description" && Rules[2].key == "price";
    assert Rules[3].key == "stock" && Rules[4].key == "image_url";
  }

  /** Property by property, the decorators state the field conditions of `Valid`. */
  lemma RuleMeaning(body: Body, i: int)
    requires 0 <= i < |Rules|
    ensures i == 0 ==> (RuleHolds(Rules[i], body) <==> OptionalString(Get(body, "name")))
    ensures i == 1 ==> (RuleHolds(Rules[i], body) <==> OptionalString(Get(body, "description")))
    ensures i == 2 ==> (RuleHolds(Rules[i], body) <==> OptionalNonNegativeNumber(Get(body, "price")))
    ensures i == 3 ==> (RuleHolds(Rules[i], body) <==> OptionalNonNegativeNumber(Get(body, "stock")))
    ensures i == 4 ==> (RuleHolds(Rules[i], body) <==> OptionalString(Get(body, "image_url")))
  {
    match i
    case 0 => AllHoldOfTwo(IsOptional, IsString, Get(body, "name"));
    case 1 => AllHoldOfTwo(IsOptional, IsString, Get(body, "description"));
    case 2 => AllHoldOfThree(IsOptional, IsNumber, Min(0.0), Get(body, "price"));
    case 3 => AllHoldOfThree(IsOptional, IsNumber, Min(0.0), Get(body, "stock"));
    case 4 => AllHoldOfTwo(IsOptional, IsString, Get(body, "image_url"));
  }

  /** The decorators accept exactly the valid bodies. */
  lemma RulesAcceptExactlyValid(body: Body)
    ensures Accepts(Rules, body) <==> Valid(body)
  {
    AcceptsIff(Rules, body);
    DeclaredKeysOfRules();
    forall i | 0 <= i < |Rules| {
      RuleMeaning(body, i);
    }
    if forall i :: 0 <= i < |Rules| ==> RuleHolds(Rules[i], body) {
      assert RuleHolds(Rules[0], body) && RuleHolds(Rules[1], body) && RuleHolds(Rules[2], body);
      assert RuleHolds(Rules[3], body) && RuleHolds(Rules[4], body);
    }
  }

  /** Every field is optional: the empty update is accepted. */
  lemma EmptyUpdateAccepted()
    ensures Accepts(Rules, map[])
  {
    RulesAcceptExactlyValid(map[]);
  }

  /** A price or a stock, when given, is a number of at least 0; the texts, when
      given, are texts. */
  lemma AcceptedBodyFields(body: Body)
    requires Accepts(Rules, body)
    ensures forall k :: k in {"price", "stock"} && k in body && !Nullish(body[k]) ==> body[k].Num? && body[k].n >= 0.0
    ensures forall k :: k in {"name", "description", "image_url"} && k in body && !Nullish(body[k]) ==> body[k].Str?
  {
    RulesAcceptExactlyValid(body);
  }

  /** Unlike creation, an update may set an empty name. */
  lemma EmptyNameOnlyOnUpdate(price: real)
    requires price >= 0.0
    ensures Accepts(Rules, map["name" := Str("")])
    ensures !Accepts(CreateProductDto.Rules, map["name" := Str(""), "price" := Num(price)])
  {
    RulesAcceptExactlyValid(map["name" := Str("")]);
    CreateProductDto.RulesAcceptExactlyValid(map["name" := Str(""), "price" := Num(price)]);
  }

  /** An update cannot move a product to another category or group: those keys are
      not declared, so a body carrying them is refused. */
  lemma CategoryAndGroupRejected(body: Body)
    requires "categoryId" in body || "group_item" in body
    ensures !Accepts(Rules, body)
  {
    RulesAcceptExactlyValid(body);
  }

  /** On the fields the two share, creation is the stricter: a body acceptable for
      creation that carries only updatable keys is acceptable as an update. */
  lemma CreationStricterOnSharedFields(body: Body)
    requires Accepts(CreateProductDto.Rules, body) && body.Keys <= Keys
    ensures Accepts(Rules, body)
  {
    CreateProductDto.RulesAcceptExactlyValid(body);
    RulesAcceptExactlyValid(body);
  }
}
