/** The body of `POST /products`. */
module CreateProductDto {
  import opened Values
  import opened Validation

  /** The decorators of `CreateProductDto`, property by property. */
  const Rules: Schema := [
    PropertyRule("name", [IsNotEmpty, IsString]),
    PropertyRule("description", [IsOptional, IsString]),
    PropertyRule("price", [IsNotEmpty, IsNumber, Min(0.0)]),
    PropertyRule("stock", [IsOptional, IsNumber, Min(0.0)]),
    PropertyRule("image_url", [IsOptional, IsString]),
    PropertyRule("categoryId", [IsOptional, IsNumber]),
    PropertyRule("group_item", [IsOptional, IsString])
  ]

  const Keys: set<string> := {"name", "description", "price", "stock", "image_url", "categoryId", "group_item"}

  /** A body the endpoint accepts, field by field: a non-empty `name`, a price of
      at least 0, an optional stock of at least 0, optional texts and an optional
      numeric category, and no other key. */
  predicate Valid(body: Body) {
    && body.Keys <= Keys
    && NonEmptyString(Get(body, "name"))
    && OptionalString(Get(body, "description"))
    && NonNegativeNumber(Get(body, "price"))
    && OptionalNonNegativeNumber(Get(body, "stock"))
    && OptionalString(Get(body, "image_url"))
    && OptionalNumber(Get(body, "categoryId"))
    && OptionalString(Get(body, "group_item"))
  }

  lemma DeclaredKeysOfRules()
    ensures DeclaredKeys(Rules) == Keys
  {
    assert Rules[0].key == "name" && Rules[1].key == "description" && Rules[2].key == "price";
    assert Rules[3].key == "stock" && Rules[4].key == "image_url" && Rules[5].key == "categoryId";
    assert Rules[6].key == "group_item";
  }

  /** Property by property, the decorators state the field conditions of `Valid`. */
  lemma RuleMeaning(body: Body, i: int)
    requires 0 <= i < |Rules|
    ensures i == 0 ==> (RuleHolds(Rules[i], body) <==> NonEmptyString(Get(body, "name")))
    ensures i == 1 ==> (RuleHolds(Rules[i], body) <==> OptionalString(Get(body, "description")))
    ensures i == 2 ==> (RuleHolds(Rules[i], body) <==> NonNegativeNumber(Get(body, "price")))
    ensures i == 3 ==> (RuleHolds(Rules[i], body) <==> OptionalNonNegativeNumber(Get(body, "stock")))
    ensures i == 4 ==> (RuleHolds(Rules[i], body) <==> OptionalString(Get(body, "image_url")))
    ensures i == 5 ==> (RuleHolds(Rules[i], body) <==> OptionalNumber(Get(body, "categoryId")))
    ensures i == 6 ==> (RuleHolds(Rules[i], body) <==> OptionalString(Get(body, "group_item")))
  {
    match i
    case 0 => AllHoldOfTwo(IsNotEmpty, IsString, Get(body, "name"));
    case 1 => AllHoldOfTwo(IsOptional, IsString, Get(body, "description"));
    case 2 => AllHoldOfThree(IsNotEmpty, IsNumber, Min(0.0), Get(body, "price"));
    case 3 => AllHoldOfThree(IsOptional, IsNumber, Min(0.0), Get(body, "stock"));
    case 4 => AllHoldOfTwo(IsOptional, IsString, Get(body, "image_url"));
    case 5 => AllHoldOfTwo(IsOptional, IsNumber, Get(body, "categoryId"));
    case 6 => AllHoldOfTwo(IsOptional, IsString, Get(body, "group_item"));
  }

  /** The decorators accept exactly the valid bodies. */
  lemma RulesAcceptExactlyValid(body: Body)
    ensures Accepts(Rules, body) <==> Valid(body)
  {
    AcceptsIff(Rules, body);
    DeclaredKeysOfRules();
    forall i | 0 <= i < |Rules| {
      RuleMeaning(body, i);
    }
    if forall i :: 0 <= i < |Rules| ==> RuleHolds(Rules[i], body) {
      assert RuleHolds(Rules[0], body) && RuleHolds(Rules[1], body) && RuleHolds(Rules[2], body);
      assert RuleHolds(Rules[3], body) && RuleHolds(Rules[4], body) && RuleHolds(Rules[5], body);
      assert RuleHolds(Rules[6], body);
    }
  }

  /** An accepted body names the product with a non-empty text and prices it at 0
      or more; a stock, when given, is a number of at least 0; the optional texts
      are texts and the category a number. */
  lemma AcceptedBodyFields(body: Body)
    requires Accepts(Rules, body)
    ensures "name" in body && body["name"].Str? && body["name"].s != ""
    ensures "price" in body && body["price"].Num? && body["price"].n >= 0.0
    ensures "stock" in body && !Nullish(body["stock"]) ==> body["stock"].Num? && body["stock"].n >= 0.0
    ensures forall k :: k in {"description", "image_url", "group_item"} && k in body && !Nullish(body[k]) ==> body[k].Str?
    ensures "categoryId" in body && !Nullish(body["categoryId"]) ==> body["categoryId"].Num?
  {
    RulesAcceptExactlyValid(body);
  }

  /** Any key outside the seven declared ones is refused. */
  lemma UndeclaredKeyRejected(body: Body, k: string)
    requires k in body && k !in Keys
    ensures !Accepts(Rules, body)
  {
    RulesAcceptExactlyValid(body);
  }

  /** The optional fields may be left out of an accepted body. */
  lemma OptionalFieldsMayBeOmitted(body: Body, k: string)
    requires Accepts(Rules, body)
    requires k in {"description", "stock", "image_url", "categoryId", "group_item"}
    ensures Accepts(Rules, body - {k})
  {
    RulesAcceptExactlyValid(body);
    RulesAcceptExactlyValid(body - {k});
  }

  /** A name and a price alone make an acceptable product. */
  lemma NameAndPriceSuffice(name: string, price: real)
    requires name != "" && price >= 0.0
    ensures Accepts(Rules, map["name" := Str(name), "price" := Num(price)])
  {
    var body := map["name" := Str(name), "price" := Num(price)];
    assert body.Keys == {"name", "price"};
    assert Get(body, "description") == Get(body, "stock") == Get(body, "image_url") == Undefined;
    assert Get(body, "categoryId") == Get(body, "group_item") == Undefined;
    RulesAcceptExactlyValid(body);
  }
}
